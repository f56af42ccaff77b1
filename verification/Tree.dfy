/** The list as the pre-order walk of the origin tree (packages/crdt/src/rga.ts). */
module Tree {
  import opened Ids
  import opened Order
  import opened Arrival

  // Siblings stand in descending id order, provided every id is greater than its origin's.

  /** Every id is greater than the id it was typed after. */
  ghost predicate Causal(t: Origins) {
    forall x :: x in t && t[x].Some? ==> t[x].value in t && Less(t[x].value, x)
  }

  ghost function Kids(t: Origins, parent: Option<OpId>): set<OpId> {
    set x | x in t && t[x] == parent
  }

  /** All ids a subtree of `parent` can hold. */
  ghost function Reach(t: Origins, parent: Option<OpId>): set<OpId> {
    set x | x in t && (parent.Some? ==> Less(parent.value, x))
  }

  lemma {:induction false} ReachShrinks(t: Origins, x: OpId)
    requires Causal(t) && x in t
    ensures Reach(t, Some(x)) < Reach(t, t[x])
  {
    CompareSigns(x, x);
    assert x in Reach(t, t[x]) && x !in Reach(t, Some(x));
    forall y | y in Reach(t, Some(x)) ensures y in Reach(t, t[x]) {
      if t[x].Some? { LessTransitive(t[x].value, x, y); }
    }
  }

  ghost function Largest(s: set<OpId>): (m: OpId)
    requires s != {}
    ensures m in s && forall x :: x in s && x != m ==> Less(x, m)
  {
    var x :| x in s;
    if s == {x} then x
    else
      var m := Largest(s - {x});
      assert s == (s - {x}) + {x};
      CompareSigns(m, x);
      if Less(m, x) then
        assert forall y :: y in s && y != m && y != x ==> Less(y, x) by {
          forall y | y in s && y != m && y != x ensures Less(y, x) { LessTransitive(y, m, x); }
        }
        x
      else m
  }

  /** The subtrees of the children `siblings` of `parent`, the greatest child first. */
  ghost function Walk(t: Origins, parent: Option<OpId>, siblings: set<OpId>): seq<OpId>
    requires Causal(t) && siblings <= Kids(t, parent)
    decreases Reach(t, parent), siblings
  {
    if siblings == {} then []
    else
      var m := Largest(siblings);
      ReachShrinks(t, m);
      [m] + Walk(t, Some(m), Kids(t, Some(m))) + Walk(t, parent, siblings - {m})
  }

  /** The pre-order walk of the whole origin tree. */
  ghost function PreOrder(t: Origins): seq<OpId>
    requires Causal(t)
  {
    Walk(t, None, Kids(t, None))
  }

  // Place and concatenation

  lemma {:induction false} InsertLeft(a: seq<OpId>, b: seq<OpId>, at: nat, x: OpId)
    requires at <= |a|
    ensures InsertAt(a + b, at, x) == InsertAt(a, at, x) + b
  {
  }

  lemma {:induction false} InsertRight(a: seq<OpId>, b: seq<OpId>, at: nat, x: OpId)
    requires at <= |b|
    ensures InsertAt(a + b, |a| + at, x) == a + InsertAt(b, at, x)
  {
  }

  lemma {:induction false} PlaceLeft(a: seq<OpId>, b: seq<OpId>, x: OpId, o: OpId)
    requires o in a && (b == [] || !Less(x, b[0]))
    ensures Place(a + b, x, Some(o)) == Place(a, x, Some(o)) + b
  {
    IndexOfConcat(a, b, o);
    var at := Scan(a, ScanStart(a, Some(o)), x);
    ScanStops(a, ScanStart(a, Some(o)), x);
    InsertLeft(a, b, at, x);
    PlaceAt(a + b, x, Some(o), at);
  }

  lemma {:induction false} PlaceRight(a: seq<OpId>, b: seq<OpId>, x: OpId, o: OpId)
    requires o !in a && o in b
    ensures Place(a + b, x, Some(o)) == a + Place(b, x, Some(o))
  {
    IndexOfConcat(a, b, o);
    var at := Scan(b, ScanStart(b, Some(o)), x);
    ScanStops(b, ScanStart(b, Some(o)), x);
    InsertRight(a, b, at, x);
    PlaceAt(a + b, x, Some(o), |a| + at);
  }

  lemma {:induction false} PlaceOver(a: seq<OpId>, b: seq<OpId>, x: OpId)
    requires forall i :: 0 <= i < |a| ==> Less(x, a[i])
    ensures Place(a + b, x, None) == a + Place(b, x, None)
  {
    var at := Scan(b, 0, x);
    ScanStops(b, 0, x);
    InsertRight(a, b, at, x);
    PlaceAt(a + b, x, None, |a| + at);
  }

  lemma {:induction false} PlaceAfterHead(m: OpId, w: seq<OpId>, x: OpId)
    ensures Place([m] + w, x, Some(m)) == [m] + Place(w, x, None)
  {
    var at := Scan(w, 0, x);
    ScanStops(w, 0, x);
    InsertRight([m], w, at, x);
    PlaceAt([m] + w, x, Some(m), 1 + at);
  }

  lemma {:induction false} IndexOfConcat(a: seq<OpId>, b: seq<OpId>, x: OpId)
    ensures IndexOf(a + b, x) == if x in a then IndexOf(a, x) else |a| + IndexOf(b, x)
  {
    if a == [] {
      assert a + b == b;
    } else {
      assert (a + b)[1..] == a[1..] + b;
      IndexOfConcat(a[1..], b, x);
    }
  }

  // How the walk grows

  lemma {:induction false} WalkAbove(t: Origins, parent: Option<OpId>, siblings: set<OpId>, x: OpId)
    requires Causal(t) && siblings <= Kids(t, parent) && x in Walk(t, parent, siblings)
    ensures parent.Some? ==> Less(parent.value, x)
    ensures x in t && exists y :: y in siblings && (y == x || Less(y, x))
    decreases Reach(t, parent), siblings
  {
    var m := Largest(siblings);
    ReachShrinks(t, m);
    if x in Walk(t, Some(m), Kids(t, Some(m))) {
      WalkAbove(t, Some(m), Kids(t, Some(m)), x);
      if parent.Some? { LessTransitive(parent.value, m, x); }
    } else if x in Walk(t, parent, siblings - {m}) {
      WalkAbove(t, parent, siblings - {m}, x);
    } else {
      assert x == m;
    }
  }

  lemma {:induction false} CausalGrows(t: Origins, x: OpId, o: Option<OpId>)
    requires Causal(t) && x !in t
    requires o.Some? ==> o.value in t && Less(o.value, x)
    ensures Causal(t[x := o])
    ensures Kids(t[x := o], o) == Kids(t, o) + {x}
    ensures forall p :: p != o ==> Kids(t[x := o], p) == Kids(t, p)
    ensures Kids(t[x := o], Some(x)) == {}
  {
  }

  /** A subtree that does not hold the origin does not change. */
  lemma {:induction false} WalkFrame(t: Origins, x: OpId, o: Option<OpId>, parent: Option<OpId>, siblings: set<OpId>)
    requires Causal(t) && x !in t
    requires o.Some? ==> o.value in t && Less(o.value, x)
    requires siblings <= Kids(t, parent)
    requires o.Some? ==> o.value !in Walk(t, parent, siblings)
    ensures Causal(t[x := o]) && siblings <= Kids(t[x := o], parent)
    ensures Walk(t[x := o], parent, siblings) == Walk(t, parent, siblings)
    decreases Reach(t, parent), siblings
  {
    CausalGrows(t, x, o);
    if siblings != {} {
      var m := Largest(siblings);
      ReachShrinks(t, m);
      assert Some(m) != o;
      WalkFrame(t, x, o, Some(m), Kids(t, Some(m)));
      WalkFrame(t, x, o, parent, siblings - {m});
    }
  }

  /** A new child of `parent` lands where the scan from the front of its siblings' subtrees stops. */
  lemma {:induction false} WalkNewChild(t: Origins, x: OpId, parent: Option<OpId>, siblings: set<OpId>)
    requires Causal(t) && x !in t
    requires parent.Some? ==> parent.value in t && Less(parent.value, x)
    requires siblings <= Kids(t, parent)
    ensures Causal(t[x := parent]) && siblings + {x} <= Kids(t[x := parent], parent)
    ensures Walk(t[x := parent], parent, siblings + {x}) == Place(Walk(t, parent, siblings), x, None)
    decreases siblings
  {
    CausalGrows(t, x, parent);
    var m := Largest(siblings + {x});
    if m == x {
      WalkNewLargest(t, x, parent, siblings);
    } else {
      LargestWithSmaller(siblings, x);
      var below, rest := Walk(t, Some(m), Kids(t, Some(m))), Walk(t, parent, siblings - {m});
      assert siblings + {x} - {m} == siblings - {m} + {x};
      WalkNewChild(t, x, parent, siblings - {m});
      OriginNotInSubtree(t, parent, m);
      WalkFrame(t, x, parent, Some(m), Kids(t, Some(m)));
      SubtreeIsLarger(t, x, m);
      PlaceOver([m] + below, rest, x);
    }
  }

  lemma {:induction false} WalkNewLargest(t: Origins, x: OpId, parent: Option<OpId>, siblings: set<OpId>)
    requires Causal(t) && x !in t
    requires parent.Some? ==> parent.value in t && Less(parent.value, x)
    requires siblings <= Kids(t, parent) && Largest(siblings + {x}) == x
    ensures Causal(t[x := parent]) && siblings + {x} <= Kids(t[x := parent], parent)
    ensures Walk(t[x := parent], parent, siblings + {x}) == Place(Walk(t, parent, siblings), x, None)
  {
    CausalGrows(t, x, parent);
    NotBelowItself(t, parent, siblings);
    WalkFrame(t, x, parent, parent, siblings);
    var w := Walk(t, parent, siblings);
    LargestLeafFirst(t[x := parent], parent, siblings, x);
    if w != [] { assert w[0] in siblings; }
    GreatestGoesFirst(w, x);
  }

  /** A leaf that is the largest of the siblings is walked first, and then the others. */
  lemma {:induction false} LargestLeafFirst(t: Origins, parent: Option<OpId>, siblings: set<OpId>, x: OpId)
    requires Causal(t) && siblings + {x} <= Kids(t, parent) && x !in siblings
    requires Largest(siblings + {x}) == x && Kids(t, Some(x)) == {}
    ensures Walk(t, parent, siblings + {x}) == [x] + Walk(t, parent, siblings)
  {
    assert siblings + {x} - {x} == siblings;
    assert Walk(t, Some(x), Kids(t, Some(x))) == [];
    assert [x] + [] + Walk(t, parent, siblings) == [x] + Walk(t, parent, siblings);
  }

  lemma {:induction false} GreatestGoesFirst(w: seq<OpId>, x: OpId)
    requires w != [] ==> Less(w[0], x)
    ensures Place(w, x, None) == [x] + w
  {
    if w != [] { CompareSigns(x, w[0]); }
    PlaceAt(w, x, None, 0);
  }

  lemma {:induction false} SubtreeIsLarger(t: Origins, x: OpId, m: OpId)
    requires Causal(t) && m in t && Less(x, m)
    ensures var sub := [m] + Walk(t, Some(m), Kids(t, Some(m)));
      forall i :: 0 <= i < |sub| ==> Less(x, sub[i])
  {
    var below := Walk(t, Some(m), Kids(t, Some(m)));
    forall i | 0 <= i < |below| ensures Less(x, below[i]) {
      WalkAbove(t, Some(m), Kids(t, Some(m)), below[i]);
      LessTransitive(x, m, below[i]);
    }
  }

  lemma {:induction false} LargestWithSmaller(s: set<OpId>, x: OpId)
    requires x !in s && Largest(s + {x}) != x
    ensures s != {} && Largest(s + {x}) == Largest(s)
  {
    var m := Largest(s + {x});
    assert m in s;
    CompareSigns(m, Largest(s));
  }

  lemma {:induction false} NotBelowItself(t: Origins, parent: Option<OpId>, siblings: set<OpId>)
    requires Causal(t) && siblings <= Kids(t, parent)
    ensures parent.Some? ==> parent.value !in Walk(t, parent, siblings)
  {
    if parent.Some? && parent.value in Walk(t, parent, siblings) {
      WalkAbove(t, parent, siblings, parent.value);
      CompareSigns(parent.value, parent.value);
    }
  }

  lemma {:induction false} OriginNotInSubtree(t: Origins, parent: Option<OpId>, m: OpId)
    requires Causal(t) && m in t && t[m] == parent
    ensures parent.Some? ==> parent.value !in Walk(t, Some(m), Kids(t, Some(m)))
  {
    if parent.Some? && parent.value in Walk(t, Some(m), Kids(t, Some(m))) {
      WalkAbove(t, Some(m), Kids(t, Some(m)), parent.value);
      CompareSigns(m, parent.value);
    }
  }

  /** A new id typed after `o`, somewhere below `siblings`, lands where the scan from `o` stops. */
  lemma {:induction false} WalkNewDescendant(t: Origins, x: OpId, o: OpId, parent: Option<OpId>, siblings: set<OpId>)
    requires Causal(t) && x !in t && o in t && Less(o, x)
    requires siblings <= Kids(t, parent)
    requires o in Walk(t, parent, siblings) && Distinct(Walk(t, parent, siblings))
    ensures Causal(t[x := Some(o)]) && siblings <= Kids(t[x := Some(o)], parent)
    ensures Walk(t[x := Some(o)], parent, siblings) == Place(Walk(t, parent, siblings), x, Some(o))
    decreases Reach(t, parent), siblings
  {
    CausalGrows(t, x, Some(o));
    NotBelowItself(t, parent, siblings);
    var u, m := t[x := Some(o)], Largest(siblings);
    ReachShrinks(t, m);
    var below, rest := Walk(t, Some(m), Kids(t, Some(m))), Walk(t, parent, siblings - {m});
    DistinctParts([m], below, rest);
    if o in rest {
      WalkFrame(t, x, Some(o), Some(m), Kids(t, Some(m)));
      WalkNewDescendant(t, x, o, parent, siblings - {m});
      PlaceRight([m] + below, rest, x, o);
    } else {
      WalkFrame(t, x, Some(o), parent, siblings - {m});
      StopsAtRest(t, x, o, parent, siblings);
      PlaceLeft([m] + below, rest, x, o);
      if o == m {
        WalkNewChild(t, x, Some(m), Kids(t, Some(m)));
        PlaceAfterHead(m, below, x);
      } else {
        WalkNewDescendant(t, x, o, Some(m), Kids(t, Some(m)));
        PlaceRight([m], below, x, o);
      }
    }
  }

  lemma {:induction false} DistinctParts(a: seq<OpId>, b: seq<OpId>, c: seq<OpId>)
    requires Distinct(a + b + c)
    ensures Distinct(b) && Distinct(c)
    ensures forall x :: x in a + b ==> x !in c
    ensures forall x :: x in a ==> x !in b
  {
    var s := a + b + c;
    assert forall i :: 0 <= i < |b| ==> b[i] == s[|a| + i];
    assert forall i :: 0 <= i < |c| ==> c[i] == s[|a| + |b| + i];
    assert forall i :: 0 <= i < |a + b| ==> (a + b)[i] == s[i];
    assert forall i :: 0 <= i < |a| ==> a[i] == s[i];
  }

  /** What follows the subtree of the largest sibling begins with an id below everything in it. */
  lemma {:induction false} StopsAtRest(t: Origins, x: OpId, o: OpId, parent: Option<OpId>, siblings: set<OpId>)
    requires Causal(t) && siblings != {} && siblings <= Kids(t, parent) && Less(o, x)
    requires var m := Largest(siblings); o == m || o in Walk(t, Some(m), Kids(t, Some(m)))
    ensures var rest := Walk(t, parent, siblings - {Largest(siblings)});
      rest == [] || !Less(x, rest[0])
  {
    var m := Largest(siblings);
    var rest := Walk(t, parent, siblings - {m});
    if rest != [] {
      assert rest[0] in siblings && rest[0] != m;
      if o != m {
        WalkAbove(t, Some(m), Kids(t, Some(m)), o);
        LessTransitive(rest[0], m, o);
      }
      LessTransitive(rest[0], o, x);
      CompareSigns(rest[0], x);
    }
  }

  lemma {:induction false} WeaveIsPreOrder(t: Origins, h: History)
    requires Causal(t) && Ready(t, h) && Arrived(h) == t.Keys
    ensures Weave(t, h) == PreOrder(t)
  {
    if h.Start? {
      assert Kids(t, None) == {};
    } else {
      var x, o := h.id, t[h.id];
      var u := map y | y in Arrived(h.before) :: t[y];
      assert u[x := o] == t;
      WeaveFrame(t, u, h.before);
      forall y | y in u && u[y].Some? ensures u[y].value in u { OriginsArrived(t, h.before, y); }
      WeaveIsPreOrder(u, h.before);
      WeaveElements(u, h.before);
      CausalGrows(u, x, o);
      if o.None? {
        WalkNewChild(u, x, None, Kids(u, None));
      } else {
        WalkNewDescendant(u, x, o.value, None, Kids(u, None));
      }
    }
  }

  /** With causal ids the list is the pre-order walk of the origin tree. */
  lemma {:induction false} BuiltIsPreOrder(t: Origins, order: seq<OpId>)
    requires Causal(t) && Built(t, order)
    ensures order == PreOrder(t)
  {
    var h :| Explains(h, t, order);
    WeaveIsPreOrder(t, h);
  }

  lemma {:induction false} SiblingInWalk(t: Origins, parent: Option<OpId>, siblings: set<OpId>, x: OpId)
    requires Causal(t) && siblings <= Kids(t, parent) && x in siblings
    ensures x in Walk(t, parent, siblings)
    decreases siblings
  {
    var m := Largest(siblings);
    if x != m { SiblingInWalk(t, parent, siblings - {m}, x); }
  }

  /** x stands somewhere before y. */
  ghost predicate StandsBefore(order: seq<OpId>, x: OpId, y: OpId) {
    exists i, j :: 0 <= i < j < |order| && order[i] == x && order[j] == y
  }

  lemma {:induction false} StandsBeforeBehind(front: seq<OpId>, order: seq<OpId>, x: OpId, y: OpId)
    requires StandsBefore(order, x, y)
    ensures StandsBefore(front + order, x, y)
  {
    var i, j :| 0 <= i < j < |order| && order[i] == x && order[j] == y;
    assert (front + order)[|front| + i] == x && (front + order)[|front| + j] == y;
  }

  lemma {:induction false} FirstStandsBefore(front: seq<OpId>, rest: seq<OpId>, y: OpId)
    requires front != [] && y in rest
    ensures StandsBefore(front + rest, front[0], y)
  {
    var j :| 0 <= j < |rest| && rest[j] == y;
    assert (front + rest)[0] == front[0] && (front + rest)[|front| + j] == y;
  }

  lemma {:induction false} WalkDescends(t: Origins, parent: Option<OpId>, siblings: set<OpId>, x: OpId, y: OpId)
    requires Causal(t) && siblings <= Kids(t, parent) && x in siblings && y in siblings && Less(y, x)
    ensures StandsBefore(Walk(t, parent, siblings), x, y)
    decreases siblings
  {
    var m := Largest(siblings);
    var front := [m] + Walk(t, Some(m), Kids(t, Some(m)));
    var rest := Walk(t, parent, siblings - {m});
    assert Walk(t, parent, siblings) == front + rest;
    CompareSigns(x, y);
    if x == m {
      SiblingInWalk(t, parent, siblings - {m}, y);
      FirstStandsBefore(front, rest, y);
    } else {
      WalkDescends(t, parent, siblings - {m}, x, y);
      StandsBeforeBehind(front, rest, x, y);
    }
  }

  /** Of two characters typed after the same one, the one with the greater id stands first. */
  lemma {:induction false} SiblingsDescend(t: Origins, order: seq<OpId>, x: OpId, y: OpId)
    requires Causal(t) && Built(t, order) && x in t && y in t && t[x] == t[y] && Less(y, x)
    ensures StandsBefore(order, x, y)
  {
    BuiltIsPreOrder(t, order);
    WalkDescends(t, t[x], Kids(t, t[x]), x, y);
    BuiltElements(t, order);
    if t[x].Some? { SubtreeStands(t, None, Kids(t, None), t[x].value, x, y); }
  }

  /** Every id's subtree is part of the walk. */
  lemma {:induction false} SubtreeStands(t: Origins, parent: Option<OpId>, siblings: set<OpId>, p: OpId, x: OpId,
                                         y: OpId)
    requires Causal(t) && siblings <= Kids(t, parent) && p in Walk(t, parent, siblings)
    requires p in t && StandsBefore(Walk(t, Some(p), Kids(t, Some(p))), x, y)
    ensures StandsBefore(Walk(t, parent, siblings), x, y)
    decreases Reach(t, parent), siblings
  {
    var m := Largest(siblings);
    ReachShrinks(t, m);
    var below, rest := Walk(t, Some(m), Kids(t, Some(m))), Walk(t, parent, siblings - {m});
    assert Walk(t, parent, siblings) == [m] + below + rest;
    if p in rest {
      SubtreeStands(t, parent, siblings - {m}, p, x, y);
      StandsBeforeBehind([m] + below, rest, x, y);
    } else {
      if p != m { SubtreeStands(t, Some(m), Kids(t, Some(m)), p, x, y); }
      StandsBeforeBehind([m], below, x, y);
      StandsBeforeAhead([m] + below, rest, x, y);
    }
  }

  lemma {:induction false} StandsBeforeAhead(order: seq<OpId>, back: seq<OpId>, x: OpId, y: OpId)
    requires StandsBefore(order, x, y)
    ensures StandsBefore(order + back, x, y)
  {
    var i, j :| 0 <= i < j < |order| && order[i] == x && order[j] == y;
    assert (order + back)[i] == x && (order + back)[j] == y;
  }

  /** Every causal set of origins has a ready arrival order: by descending removal of the largest id. */
  lemma {:induction false} CausalHasHistory(t: Origins) returns (h: History)
    requires Causal(t)
    ensures Ready(t, h) && Arrived(h) == t.Keys
    decreases t.Keys
  {
    if t == map[] {
      h := Start;
    } else {
      var x := Largest(t.Keys);
      var u := t - {x};
      forall y | y in u && u[y].Some? ensures u[y].value in u {
        CompareSigns(x, y);
      }
      var g := CausalHasHistory(u);
      WeaveFrame(u, t, g);
      CompareSigns(x, x);
      h := Then(g, x);
    }
  }

  /** Both directions: for causal ids, being built by the scan and being the walk are the same thing. */
  lemma {:induction false} BuiltExactlyPreOrder(t: Origins, order: seq<OpId>)
    requires Causal(t)
    ensures Built(t, order) <==> order == PreOrder(t)
  {
    if Built(t, order) { BuiltIsPreOrder(t, order); }
    if order == PreOrder(t) {
      var h := CausalHasHistory(t);
      WeaveIsPreOrder(t, h);
      assert Explains(h, t, order);
    }
  }

  /** Between an id and one typed after it there are only ids greater than it: no subtree is split by a smaller id. */
  ghost predicate Together(t: Origins, order: seq<OpId>) {
    forall i, j, k {:trigger order[i], order[j], order[k]} ::
      0 <= i < j < k < |order| && order[k] in t && t[order[k]] == Some(order[i]) ==> Less(order[i], order[j])
  }

  /** The origin of an id in a walk is in the walk, too, unless it is the parent of all siblings. */
  lemma {:induction false} OriginInWalk(t: Origins, parent: Option<OpId>, siblings: set<OpId>, x: OpId)
    requires Causal(t) && siblings <= Kids(t, parent) && x in Walk(t, parent, siblings)
    ensures x in t && (t[x] == parent || (t[x].Some? && t[x].value in Walk(t, parent, siblings)))
    decreases Reach(t, parent), siblings
  {
    var m := Largest(siblings);
    ReachShrinks(t, m);
    if x in Walk(t, Some(m), Kids(t, Some(m))) {
      OriginInWalk(t, Some(m), Kids(t, Some(m)), x);
    } else if x in Walk(t, parent, siblings - {m}) {
      OriginInWalk(t, parent, siblings - {m}, x);
    }
  }

  lemma {:induction false} SubtreeTogether(t: Origins, m: OpId)
    requires Causal(t) && m in t && Together(t, Walk(t, Some(m), Kids(t, Some(m))))
    ensures Together(t, [m] + Walk(t, Some(m), Kids(t, Some(m))))
  {
    var below := Walk(t, Some(m), Kids(t, Some(m)));
    var w := [m] + below;
    forall i, j, k | 0 <= i < j < k < |w| && w[k] in t && t[w[k]] == Some(w[i]) ensures Less(w[i], w[j]) {
      assert w[j] == below[j - 1] && w[k] == below[k - 1];
      if i == 0 { WalkAbove(t, Some(m), Kids(t, Some(m)), w[j]); } else { assert w[i] == below[i - 1]; }
    }
  }

  lemma {:induction false} TogetherConcat(t: Origins, a: seq<OpId>, b: seq<OpId>)
    requires Together(t, a) && Together(t, b)
    requires forall x, y :: x in a && y in b && y in t ==> t[y] != Some(x)
    ensures Together(t, a + b)
  {
    var w := a + b;
    forall i, j, k | 0 <= i < j < k < |w| && w[k] in t && t[w[k]] == Some(w[i]) ensures Less(w[i], w[j]) {
      if k < |a| {
        assert w[i] == a[i] && w[j] == a[j] && w[k] == a[k];
      } else {
        assert w[k] == b[k - |a|] && w[k] in b;
        assert i >= |a| && w[i] == b[i - |a|] && w[j] == b[j - |a|];
      }
    }
  }

  lemma {:induction false} WalkTogether(t: Origins, parent: Option<OpId>, siblings: set<OpId>)
    requires Causal(t) && siblings <= Kids(t, parent) && Distinct(Walk(t, parent, siblings))
    ensures Together(t, Walk(t, parent, siblings))
    decreases Reach(t, parent), siblings
  {
    if siblings != {} {
      var m := Largest(siblings);
      ReachShrinks(t, m);
      var below, rest := Walk(t, Some(m), Kids(t, Some(m))), Walk(t, parent, siblings - {m});
      DistinctParts([m], below, rest);
      WalkTogether(t, Some(m), Kids(t, Some(m)));
      WalkTogether(t, parent, siblings - {m});
      SubtreeTogether(t, m);
      forall x, y | x in [m] + below && y in rest && y in t ensures t[y] != Some(x) {
        OriginInWalk(t, parent, siblings - {m}, y);
        if parent == Some(x) { NotInOwnSubtree(t, x, m); }
      }
      TogetherConcat(t, [m] + below, rest);
    }
  }

  lemma {:induction false} NotInOwnSubtree(t: Origins, x: OpId, m: OpId)
    requires Causal(t) && m in t && t[m] == Some(x)
    ensures x !in [m] + Walk(t, Some(m), Kids(t, Some(m)))
  {
    OriginNotInSubtree(t, Some(x), m);
    CompareSigns(x, m);
  }

  /** With causal ids no later sibling ever lands inside a subtree. */
  lemma {:induction false} SubtreesStayTogether(t: Origins, order: seq<OpId>)
    requires Causal(t) && Built(t, order)
    ensures Together(t, order)
  {
    var h :| Explains(h, t, order);
    WeaveElements(t, h);
    BuiltIsPreOrder(t, order);
    WalkTogether(t, None, Kids(t, None));
  }

  lemma {:induction false} TwoRoots(five: OpId, four: OpId)
    requires five == OpId(5, "a") && four == OpId(4, "a")
    ensures Built(map[five := None, four := None], [five, four])
  {
    var t0: Origins := map[];
    BuiltEmpty();
    BuiltPlace(t0, [], five, None);
    PlaceAt([], five, None, 0);
    assert InsertAt([], 0, five) == [five];
    BuiltPlace(t0[five := None], [five], four, None);
    PlaceAt([five], four, None, 1);
    assert InsertAt([five], 1, four) == [five, four];
    assert t0[five := None][four := None] == map[five := None, four := None];
  }

  lemma {:induction false} SplitIsSeen(five: OpId, three: OpId, four: OpId)
    requires five == OpId(5, "a") && three == OpId(3, "a") && four == OpId(4, "a")
    ensures var t: Origins := map[five := None, three := Some(five), four := None];
      !Causal(t) && !Together(t, [five, four, three])
  {
    var order := [five, four, three];
    var t: Origins := map[five := None, three := Some(five), four := None];
    assert !Less(five, three) && !Less(five, four);
    assert three in t && t[three] == Some(five);
    assert order[0] == five && order[1] == four && order[2] == three;
  }

  /**
   Without causal ids one can: with a child 3 typed after 5 but numbered below the unrelated root 4, the scan
   leaves 4 between 5 and its child.
   */
  lemma {:induction false} NonCausalIdsSplitSubtrees()
    ensures var five, three, four := OpId(5, "a"), OpId(3, "a"), OpId(4, "a");
      var t: Origins := map[five := None, three := Some(five), four := None];
      Built(t, [five, four, three]) && !Causal(t) && !Together(t, [five, four, three])
  {
    var five, three, four := OpId(5, "a"), OpId(3, "a"), OpId(4, "a");
    var t: Origins := map[five := None, four := None];
    TwoRoots(five, four);
    BuiltPlace(t, [five, four], three, Some(five));
    IndexOfAt([five, four], five, 0);
    PlaceAt([five, four], three, Some(five), 2);
    assert InsertAt([five, four], 2, three) == [five, four, three];
    SplitIsSeen(five, three, four);
    assert t[three := Some(five)] == map[five := None, three := Some(five), four := None];
  }
}
