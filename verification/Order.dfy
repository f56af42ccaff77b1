/** Where the greater-id scan puts a new id (packages/crdt/src/rga.ts). */
module Order {
  import opened Ids

  // Why the result of `integrate` does not depend on the order of arrival.

  ghost predicate Distinct(s: seq<OpId>) {
    forall i, j :: 0 <= i < j < |s| ==> s[i] != s[j]
  }

  /** Position of `x` in `s`, or |s| when it is absent. */
  function IndexOf(s: seq<OpId>, x: OpId): (i: nat)
    ensures i <= |s|
    ensures i < |s| ==> s[i] == x
    ensures forall j :: 0 <= j < i ==> s[j] != x
  {
    if s == [] then 0 else if s[0] == x then 0 else IndexOf(s[1..], x) + 1
  }

  /** The scan begins right after the origin, or at the head. */
  function ScanStart(order: seq<OpId>, origin: Option<OpId>): (i: nat)
    ensures i <= |order|
  {
    if origin.None? then 0
    else
      var at := IndexOf(order, origin.value);
      if at < |order| then at + 1 else 0
  }

  /** Keep crossing ids that are strictly greater than `id`. */
  function Scan(order: seq<OpId>, from: nat, id: OpId): (i: nat)
    requires from <= |order|
    ensures from <= i <= |order|
    decreases |order| - from
  {
    if from < |order| && Less(id, order[from]) then Scan(order, from + 1, id) else from
  }

  /** The scan crosses greater ids only and stops at the first that is not greater. */
  lemma {:induction false} ScanStops(order: seq<OpId>, from: nat, id: OpId)
    requires from <= |order|
    ensures var i := Scan(order, from, id);
      && (forall j :: from <= j < i ==> Less(id, order[j]))
      && (i < |order| ==> !Less(id, order[i]))
    decreases |order| - from
  {
    if from < |order| && Less(id, order[from]) { ScanStops(order, from + 1, id); }
  }

  function InsertAt(order: seq<OpId>, at: nat, id: OpId): (r: seq<OpId>)
    requires at <= |order|
  {
    order[..at] + [id] + order[at..]
  }

  function Place(order: seq<OpId>, id: OpId, origin: Option<OpId>): seq<OpId> {
    InsertAt(order, Scan(order, ScanStart(order, origin), id), id)
  }

  /** The place at which the scan for `x` stops. */
  function StopOf(s: seq<OpId>, x: OpId, ox: Option<OpId>): (i: nat)
    ensures i <= |s|
  {
    Scan(s, ScanStart(s, ox), x)
  }

  /** A position with the two properties of the scan's result is the scan's result. */
  lemma {:induction false} PlaceAt(order: seq<OpId>, id: OpId, origin: Option<OpId>, at: nat)
    requires ScanStart(order, origin) <= at <= |order|
    requires forall j :: ScanStart(order, origin) <= j < at ==> Less(id, order[j])
    requires at < |order| ==> !Less(id, order[at])
    ensures Place(order, id, origin) == InsertAt(order, at, id)
  {
    var i := Scan(order, ScanStart(order, origin), id);
    ScanStops(order, ScanStart(order, origin), id);
    assert i == at;
  }

  lemma {:induction false} IndexOfAt(s: seq<OpId>, x: OpId, i: nat)
    requires Distinct(s) && i < |s| && s[i] == x
    ensures IndexOf(s, x) == i
  {
  }

  /** Insertion shifts what follows it and nothing else. */
  lemma {:induction false} InsertAtFacts(order: seq<OpId>, at: nat, id: OpId)
    requires at <= |order| && Distinct(order) && id !in order
    ensures var r := InsertAt(order, at, id);
      && |r| == |order| + 1 && Distinct(r)
      && (forall i :: 0 <= i < at ==> r[i] == order[i])
      && r[at] == id
      && (forall i :: at <= i < |order| ==> r[i + 1] == order[i])
      && (forall x :: x in r <==> x == id || x in order)
  {
  }

  lemma {:induction false} InsertedAt(s: seq<OpId>, at: nat, x: OpId, j: nat)
    requires at <= |s| && j <= |s|
    ensures InsertAt(s, at, x)[j] == if j < at then s[j] else if j == at then x else s[j - 1]
  {
  }

  lemma {:induction false} ScanStartAfterInsert(order: seq<OpId>, at: nat, id: OpId, origin: Option<OpId>)
    requires at <= |order| && Distinct(order) && id !in order
    requires origin.Some? ==> origin.value in order
    ensures var s := ScanStart(order, origin);
      ScanStart(InsertAt(order, at, id), origin) == if origin.None? || s <= at then s else s + 1
  {
    if origin.Some? {
      InsertAtFacts(order, at, id);
      var i := IndexOf(order, origin.value);
      assert i < |order|;
      IndexOfAt(InsertAt(order, at, id), origin.value, if i < at then i else i + 1);
    }
  }

  /**
   An id `x` inserted before the stop of the scan for `y`: the scan begins behind it or crosses it,
   and stops where it stopped before, one place further.
   */
  lemma {:induction false} PlaceShifted(s: seq<OpId>, at: nat, x: OpId, y: OpId, oy: Option<OpId>)
    requires at <= |s| && Distinct(s) && x !in s && y != x
    requires oy.Some? ==> oy.value in s
    requires at < ScanStart(s, oy) || Less(y, x)
    requires at <= StopOf(s, y, oy)
    ensures Place(InsertAt(s, at, x), y, oy)
         == InsertAt(InsertAt(s, at, x), StopOf(s, y, oy) + 1, y)
  {
    var r, stop := InsertAt(s, at, x), StopOf(s, y, oy) + 1;
    ScanStops(s, ScanStart(s, oy), y);
    ScanStartAfterInsert(s, at, x, oy);
    assert |r| == |s| + 1;
    forall j | ScanStart(r, oy) <= j < stop ensures Less(y, r[j]) {
      InsertedAt(s, at, x, j);
    }
    if stop < |r| { InsertedAt(s, at, x, stop); }
    PlaceAt(r, y, oy, stop);
  }

  /** The scan for `y` does not notice an insertion behind its stop, nor one it is stopped by anyway. */
  lemma {:induction false} PlaceUnaware(s: seq<OpId>, at: nat, x: OpId, y: OpId, oy: Option<OpId>)
    requires at <= |s| && Distinct(s) && x !in s && y != x
    requires oy.Some? ==> oy.value in s
    requires var stop := StopOf(s, y, oy); stop < at || (stop == at && !Less(y, x))
    ensures Place(InsertAt(s, at, x), y, oy)
         == InsertAt(InsertAt(s, at, x), StopOf(s, y, oy), y)
  {
    ScanStartAfterInsert(s, at, x, oy);
    ScanStops(s, ScanStart(s, oy), y);
    PlaceAt(InsertAt(s, at, x), y, oy, StopOf(s, y, oy));
  }

  lemma {:induction false} InsertsCommute(s: seq<OpId>, i: nat, x: OpId, j: nat, y: OpId)
    requires i <= j <= |s|
    ensures InsertAt(InsertAt(s, i, x), j + 1, y) == InsertAt(InsertAt(s, j, y), i, x)
  {
  }

  lemma {:induction false} PlacesMeet(s: seq<OpId>, x: OpId, ox: Option<OpId>, y: OpId, oy: Option<OpId>)
    requires StopOf(s, x, ox) <= StopOf(s, y, oy)
    requires var t := InsertAt(s, StopOf(s, x, ox), x); Place(t, y, oy) == InsertAt(t, StopOf(s, y, oy) + 1, y)
    requires var u := InsertAt(s, StopOf(s, y, oy), y); Place(u, x, ox) == InsertAt(u, StopOf(s, x, ox), x)
    ensures Place(Place(s, x, ox), y, oy) == Place(Place(s, y, oy), x, ox)
  {
    InsertsCommute(s, StopOf(s, x, ox), x, StopOf(s, y, oy), y);
  }

  lemma {:induction false} LessAsymmetric(x: OpId, y: OpId)
    requires Less(x, y)
    ensures !Less(y, x)
  {
    CompareSigns(x, y);
  }

  /** The smaller of two ids goes behind the greater one, whichever comes first. */
  lemma {:induction false} GreaterFirst(s: seq<OpId>, x: OpId, ox: Option<OpId>, y: OpId, oy: Option<OpId>)
    requires Distinct(s) && x !in s && y !in s && Less(y, x)
    requires ox.Some? ==> ox.value in s
    requires oy.Some? ==> oy.value in s
    requires StopOf(s, x, ox) <= StopOf(s, y, oy)
    ensures Place(Place(s, x, ox), y, oy) == Place(Place(s, y, oy), x, ox)
  {
    PlaceShifted(s, StopOf(s, x, ox), x, y, oy);
    LessAsymmetric(y, x);
    PlaceUnaware(s, StopOf(s, y, oy), y, x, ox);
    PlacesMeet(s, x, ox, y, oy);
  }

  lemma {:induction false} ScanPassesStop(s: seq<OpId>, x: OpId, ox: Option<OpId>, y: OpId, oy: Option<OpId>)
    requires Less(y, x) && StopOf(s, y, oy) < StopOf(s, x, ox)
    ensures StopOf(s, y, oy) < ScanStart(s, ox)
  {
    var at := StopOf(s, y, oy);
    ScanStops(s, ScanStart(s, ox), x);
    ScanStops(s, ScanStart(s, oy), y);
    if ScanStart(s, ox) <= at { LessTransitive(y, x, s[at]); }
  }

  lemma {:induction false} SmallerFirst(s: seq<OpId>, x: OpId, ox: Option<OpId>, y: OpId, oy: Option<OpId>)
    requires Distinct(s) && x !in s && y !in s && Less(y, x)
    requires ox.Some? ==> ox.value in s
    requires oy.Some? ==> oy.value in s
    requires StopOf(s, y, oy) < StopOf(s, x, ox)
    ensures Place(Place(s, x, ox), y, oy) == Place(Place(s, y, oy), x, ox)
  {
    ScanPassesStop(s, x, ox, y, oy);
    PlaceUnaware(s, StopOf(s, x, ox), x, y, oy);
    PlaceShifted(s, StopOf(s, y, oy), y, x, ox);
    PlacesMeet(s, y, oy, x, ox);
  }

  lemma {:induction false} PlaceCommutesOrdered(s: seq<OpId>, x: OpId, ox: Option<OpId>, y: OpId, oy: Option<OpId>)
    requires Distinct(s) && x !in s && y !in s && Less(y, x)
    requires ox.Some? ==> ox.value in s
    requires oy.Some? ==> oy.value in s
    ensures Place(Place(s, x, ox), y, oy) == Place(Place(s, y, oy), x, ox)
  {
    if StopOf(s, x, ox) <= StopOf(s, y, oy) { GreaterFirst(s, x, ox, y, oy); } else { SmallerFirst(s, x, ox, y, oy); }
  }

  /**
   Two inserts that are both ready commute, whatever their ids: nothing is asked of the ids but that
   they differ, in particular not that an id is greater than its origin's.
   */
  lemma {:induction false} PlaceCommutes(s: seq<OpId>, x: OpId, ox: Option<OpId>, y: OpId, oy: Option<OpId>)
    requires Distinct(s) && x !in s && y !in s && x != y
    requires ox.Some? ==> ox.value in s
    requires oy.Some? ==> oy.value in s
    ensures Place(Place(s, x, ox), y, oy) == Place(Place(s, y, oy), x, ox)
  {
    CompareSigns(x, y);
    if Less(y, x) { PlaceCommutesOrdered(s, x, ox, y, oy); } else { PlaceCommutesOrdered(s, y, oy, x, ox); }
  }

  lemma {:induction false} IndexAfterInsert(s: seq<OpId>, at: nat, x: OpId, a: OpId)
    requires Distinct(s) && x !in s && at <= |s| && a in s
    ensures IndexOf(InsertAt(s, at, x), a) == if IndexOf(s, a) < at then IndexOf(s, a) else IndexOf(s, a) + 1
  {
    var i := IndexOf(s, a);
    InsertAtFacts(s, at, x);
    IndexOfAt(InsertAt(s, at, x), a, if i < at then i else i + 1);
  }

  /** An insertion never swaps two ids that are already there, and lands behind its origin. */
  lemma {:induction false} PlaceKeepsOrder(s: seq<OpId>, x: OpId, o: Option<OpId>)
    requires Distinct(s) && x !in s
    requires o.Some? ==> o.value in s
    ensures forall a, b :: a in s && b in s ==>
      (IndexOf(s, a) < IndexOf(s, b) <==> IndexOf(Place(s, x, o), a) < IndexOf(Place(s, x, o), b))
    ensures o.Some? ==> IndexOf(Place(s, x, o), o.value) < IndexOf(Place(s, x, o), x)
  {
    var at := Scan(s, ScanStart(s, o), x);
    var r := InsertAt(s, at, x);
    InsertAtFacts(s, at, x);
    forall a | a in s ensures IndexOf(r, a) == if IndexOf(s, a) < at then IndexOf(s, a) else IndexOf(s, a) + 1 {
      IndexAfterInsert(s, at, x, a);
    }
    IndexOfAt(r, x, at);
  }
}
