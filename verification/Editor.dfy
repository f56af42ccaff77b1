/** The editor binding: deltas become edits, and edits become CRDT ops. */
module Editor {
  import opened Ids
  import opened Ops
  import opened Document
  import opened Edits

  // apps/web/src/lib/deltaToEdits.ts, and `applyLocalEdits` of apps/web/src/lib/documentClient.ts.

  /** The value of an attribute; anything that is neither a boolean nor null is Other. */
  datatype AttrValue = Yes | No | Null | Other

  /** The entries of an attributes record in the order of its keys; an absent record has none. */
  type Attributes = seq<(string, AttrValue)>

  datatype Content = Text(text: string) | Embed

  datatype DeltaOp = DeltaOp(insert: Option<Content>, delete: Option<int>, retain: Option<int>, attributes: Attributes)

  datatype Edit =
    | InsertEdit(index: int, value: string, attrs: Marks)
    | DeleteEdit(index: int)
    | FormatEdit(index: int, length: int, patch: Patch)

  // Attributes

  /** The marks that are switched on. */
  function MarksOf(attributes: Attributes): Marks {
    set entry | entry in attributes && entry.1 == Yes :: entry.0
  }

  /** The marks that are switched on or off, in order. */
  function PatchOf(attributes: Attributes): Patch {
    if attributes == [] then []
    else Entry(attributes[0]) + PatchOf(attributes[1..])
  }

  method ToFormatMark(attributes: Attributes) returns (mark: Marks)
    ensures mark == MarksOf(attributes)
    ensures forall name :: name in mark <==> (name, Yes) in attributes
  {
    mark := {};
    for i := 0 to |attributes|
      invariant mark == MarksOf(attributes[..i])
    {
      assert attributes[..i + 1] == attributes[..i] + [attributes[i]];
      if attributes[i].1 == Yes { mark := mark + {attributes[i].0}; }
    }
    assert attributes[..|attributes|] == attributes;
  }

  /** The patch entry of one attribute, if it has any. */
  function Entry(attribute: (string, AttrValue)): Patch {
    match attribute.1
    case Yes => [(attribute.0, true)]
    case No => [(attribute.0, false)]
    case Null => [(attribute.0, false)]
    case Other => []
  }

  lemma {:induction false} PatchOfNext(attributes: Attributes, i: nat, patch: Patch)
    requires i < |attributes|
    ensures patch + PatchOf(attributes[i..]) == patch + Entry(attributes[i]) + PatchOf(attributes[i + 1..])
  {
  }

  method ToFormatPatch(attributes: Attributes) returns (patch: Patch)
    ensures patch == PatchOf(attributes)
  {
    patch := [];
    for i := 0 to |attributes|
      invariant patch + PatchOf(attributes[i..]) == PatchOf(attributes)
    {
      var (key, value) := attributes[i];
      PatchOfNext(attributes, i, patch);
      if value == Yes { patch := patch + [(key, true)]; }
      else if value == No || value == Null { patch := patch + [(key, false)]; }
    }
  }

  /** What the editor itself does to the marks of a character, as far as boolean marks go. */
  function Restyle(marks: Marks, attributes: Attributes): Marks {
    (marks - set entry | entry in attributes && entry.1 in {No, Null} :: entry.0) + MarksOf(attributes)
  }

  predicate DistinctKeys(attributes: Attributes) {
    forall i, j :: 0 <= i < j < |attributes| ==> attributes[i].0 != attributes[j].0
  }

  lemma {:induction false} RestyleHead(marks: Marks, attributes: Attributes)
    requires attributes != [] && DistinctKeys(attributes)
    ensures Restyle(RestyleOne(marks, attributes[0]), attributes[1..]) == Restyle(marks, attributes)
  {
  }

  function RestyleOne(marks: Marks, entry: (string, AttrValue)): Marks {
    match entry.1
    case Yes => marks + {entry.0}
    case No => marks - {entry.0}
    case Null => marks - {entry.0}
    case Other => marks
  }

  /** One patch entry per attribute, in order, makes of the marks what the editor makes of them. */
  lemma {:induction false} PatchRestyles(marks: Marks, attributes: Attributes)
    requires DistinctKeys(attributes)
    ensures PatchMarks(marks, PatchOf(attributes)) == Restyle(marks, attributes)
    decreases |attributes|
  {
    if attributes != [] {
      var rest := attributes[1..];
      PatchRestyles(RestyleOne(marks, attributes[0]), rest);
      RestyleHead(marks, attributes);
      assert attributes[0].1 != Other ==> PatchOf(attributes)[1..] == PatchOf(rest);
      assert attributes[0].1 == Other ==> PatchOf(attributes) == PatchOf(rest);
    }
  }

  // The translation

  function Inserts(text: string, cursor: int, attrs: Marks): seq<Edit> {
    if text == "" then [] else [InsertEdit(cursor, [text[0]], attrs)] + Inserts(text[1..], cursor + 1, attrs)
  }

  function Deletes(count: int, cursor: int): seq<Edit>
    decreases count
  {
    if count <= 0 then [] else [DeleteEdit(cursor)] + Deletes(count - 1, cursor)
  }

  /** The edits of one entry of the delta, at this cursor. */
  function EditsOf(op: DeltaOp, cursor: int): seq<Edit> {
    if op.retain.Some? then
      if PatchOf(op.attributes) == [] then [] else [FormatEdit(cursor, op.retain.value, PatchOf(op.attributes))]
    else if op.insert.Some? then
      if op.insert.value.Text? then Inserts(op.insert.value.text, cursor, MarksOf(op.attributes)) else []
    else if op.delete.Some? then Deletes(op.delete.value, cursor)
    else []
  }

  function CursorAfter(op: DeltaOp, cursor: int): int {
    if op.retain.Some? then cursor + op.retain.value
    else if op.insert.Some? then if op.insert.value.Text? then cursor + |op.insert.value.text| else cursor + 1
    else cursor
  }

  function EditsFrom(delta: seq<DeltaOp>, cursor: int): seq<Edit>
    decreases |delta|
  {
    if delta == [] then [] else EditsOf(delta[0], cursor) + EditsFrom(delta[1..], CursorAfter(delta[0], cursor))
  }

  method InsertEdits(text: string, start: int, attrs: Marks, soFar: seq<Edit>) returns (edits: seq<Edit>, cursor: int)
    ensures edits == soFar + Inserts(text, start, attrs) && cursor == start + |text|
  {
    edits, cursor := soFar, start;
    for i := 0 to |text|
      invariant edits + Inserts(text[i..], cursor, attrs) == soFar + Inserts(text, start, attrs)
      invariant cursor == start + i
    {
      assert text[i..][1..] == text[i + 1..];
      edits := edits + [InsertEdit(cursor, [text[i]], attrs)];
      cursor := cursor + 1;
    }
  }

  method DeleteEdits(count: int, cursor: int, soFar: seq<Edit>) returns (edits: seq<Edit>)
    ensures edits == soFar + Deletes(count, cursor)
  {
    edits := soFar;
    var i := 0;
    while i < count
      invariant edits + Deletes(count - i, cursor) == soFar + Deletes(count, cursor)
    {
      edits := edits + [DeleteEdit(cursor)];
      i := i + 1;
    }
  }

  method OneEntry(op: DeltaOp, start: int, soFar: seq<Edit>) returns (edits: seq<Edit>, cursor: int)
    ensures edits == soFar + EditsOf(op, start) && cursor == CursorAfter(op, start)
  {
    edits, cursor := soFar, start;
    if op.retain.Some? {
      var patch := ToFormatPatch(op.attributes);
      if patch != [] { edits := edits + [FormatEdit(cursor, op.retain.value, patch)]; }
      cursor := cursor + op.retain.value;
    } else if op.insert.Some? && op.insert.value.Text? {
      var attrs := ToFormatMark(op.attributes);
      edits, cursor := InsertEdits(op.insert.value.text, cursor, attrs, edits);
    } else if op.insert.Some? {
      cursor := cursor + 1;
    } else if op.delete.Some? {
      edits := DeleteEdits(op.delete.value, cursor, edits);
    }
  }

  ghost predicate TranslatedTo(delta: seq<DeltaOp>, i: nat, edits: seq<Edit>, cursor: int)
    requires i <= |delta|
  {
    edits + EditsFrom(delta[i..], cursor) == EditsFrom(delta, 0)
  }

  lemma {:induction false} TranslatedToStep(delta: seq<DeltaOp>, i: nat, edits: seq<Edit>, cursor: int)
    requires i < |delta| && TranslatedTo(delta, i, edits, cursor)
    ensures TranslatedTo(delta, i + 1, edits + EditsOf(delta[i], cursor), CursorAfter(delta[i], cursor))
  {
  }

  method DeltaToEdits(delta: seq<DeltaOp>) returns (edits: seq<Edit>)
    ensures edits == EditsFrom(delta, 0)
  {
    edits := [];
    var cursor := 0;
    for i := 0 to |delta|
      invariant TranslatedTo(delta, i, edits, cursor)
    {
      TranslatedToStep(delta, i, edits, cursor);
      edits, cursor := OneEntry(delta[i], cursor, edits);
    }
  }

  // Running the edits

  datatype Outcome = Outcome(doc: Doc, ops: seq<Op>, thrown: bool)

  /** One edit on the replica; a delete without a character at its index throws. */
  function ApplyEdit(d: Doc, replicaId: string, edit: Edit): Outcome {
    match edit
    case InsertEdit(index, value, attrs) =>
      var op := InsertOpAt(d, replicaId, index, value, attrs);
      Outcome(LocalInsert(d, op), [op], false)
    case DeleteEdit(index) =>
      var r := LocalDelete(d, index);
      if r.None? then Outcome(d, [], true) else Outcome(r.value.0, [r.value.1], false)
    case FormatEdit(index, length, patch) =>
      var (e, ops) := LocalFormat(d, replicaId, index, if length < 0 then 0 else length, patch);
      Outcome(e, ops, false)
  }

  /** The edits in order, up to the first that throws. */
  function ApplyEdits(d: Doc, replicaId: string, edits: seq<Edit>): Outcome
    decreases |edits|
  {
    if edits == [] then Outcome(d, [], false)
    else
      var first := ApplyEdit(d, replicaId, edits[0]);
      if first.thrown then first
      else
        var rest := ApplyEdits(first.doc, replicaId, edits[1..]);
        Outcome(rest.doc, first.ops + rest.ops, rest.thrown)
  }

  /** All edits of one delta on the replica. */
  function Performed(d: Doc, replicaId: string, edits: seq<Edit>): Outcome {
    ApplyEdits(d, replicaId, edits)
  }

  lemma {:induction false} PerformedHead(d: Doc, replicaId: string, edits: seq<Edit>)
    requires edits != []
    ensures Performed(d, replicaId, edits) ==
      var first := ApplyEdit(d, replicaId, edits[0]);
      if first.thrown then first
      else
        var rest := Performed(first.doc, replicaId, edits[1..]);
        Outcome(rest.doc, first.ops + rest.ops, rest.thrown)
  {
  }

  /** The same on what is visible: None if the edit throws. */
  function EditGlyphs(g: seq<Glyph>, edit: Edit): Option<seq<Glyph>> {
    match edit
    case InsertEdit(index, value, attrs) =>
      Some(Splice(g, if 0 <= index <= |g| then index else 0, Glyph(value, attrs)))
    case DeleteEdit(index) => if 0 <= index < |g| then Some(Remove(g, index)) else None
    case FormatEdit(index, length, patch) => Some(FormatRange(g, index, if length < 0 then 0 else length, patch))
  }

  function EditAllGlyphs(g: seq<Glyph>, edits: seq<Edit>): Option<seq<Glyph>>
    decreases |edits|
  {
    if edits == [] then Some(g)
    else if EditGlyphs(g, edits[0]).None? then None
    else EditAllGlyphs(EditGlyphs(g, edits[0]).value, edits[1..])
  }

  lemma {:induction false} ApplyEditShows(d: Doc, replicaId: string, edit: Edit)
    requires Sound(d)
    ensures var r := ApplyEdit(d, replicaId, edit);
      && Sound(r.doc)
      && EditGlyphs(Glyphs(d), edit) == if r.thrown then None else Some(Glyphs(r.doc))
  {
    match edit
    case InsertEdit(index, value, attrs) =>
      LocalInsertSplices(d, replicaId, index, value, attrs);
      LocalInsertKeepsSound(d, replicaId, index, value, attrs);
    case DeleteEdit(index) =>
      LocalDeleteRemoves(d, index);
      if LocalDelete(d, index).Some? { LocalDeleteKeepsSound(d, index); }
    case FormatEdit(index, length, patch) =>
      LocalFormatPatches(d, replicaId, index, if length < 0 then 0 else length, patch);
  }

  /** Any edits, in range or not: the visible characters change as the edits say, and a throw comes when it must. */
  lemma {:induction false} ApplyEditsShow(d: Doc, replicaId: string, edits: seq<Edit>)
    requires Sound(d)
    ensures var r := ApplyEdits(d, replicaId, edits);
      && Sound(r.doc)
      && EditAllGlyphs(Glyphs(d), edits) == if r.thrown then None else Some(Glyphs(r.doc))
    decreases |edits|
  {
    if edits != [] {
      var first := ApplyEdit(d, replicaId, edits[0]);
      ApplyEditShows(d, replicaId, edits[0]);
      if !first.thrown { ApplyEditsShow(first.doc, replicaId, edits[1..]); }
    }
  }

  // What a delta means

  function Typed(text: string, attrs: Marks): seq<Glyph> {
    seq(|text|, i requires 0 <= i < |text| => Glyph([text[i]], attrs))
  }

  function Restyled(g: seq<Glyph>, attributes: Attributes): seq<Glyph> {
    seq(|g|, i requires 0 <= i < |g| => Glyph(g[i].value, Restyle(g[i].attrs, attributes)))
  }

  /** How many of the old characters the entry uses up; None if it is none of the four plain kinds or out of bounds. */
  function Consumes(op: DeltaOp, available: nat): Option<nat> {
    if op.retain.Some? then if 0 <= op.retain.value <= available then Some(op.retain.value) else None
    else if op.insert.Some? then if op.insert.value.Text? then Some(0) else None
    else if op.delete.Some? then if 0 <= op.delete.value <= available then Some(op.delete.value) else None
    else Some(0)
  }

  /** An in-bounds delta without embeds, whose attribute records have no key twice. */
  predicate InBounds(delta: seq<DeltaOp>, available: nat)
    decreases |delta|
  {
    delta == [] ||
      (&& DistinctKeys(delta[0].attributes) && Consumes(delta[0], available).Some?
       && Consumes(delta[0], available).value <= available
       && InBounds(delta[1..], available - Consumes(delta[0], available).value))
  }

  /** What one entry puts in place of the characters that it uses up. */
  function Produces(op: DeltaOp, taken: seq<Glyph>): seq<Glyph> {
    if op.retain.Some? then Restyled(taken, op.attributes)
    else if op.insert.Some? && op.insert.value.Text? then Typed(op.insert.value.text, MarksOf(op.attributes))
    else []
  }

  /** The delta read directly: retain, insert and delete from left to right; the rest stays. */
  function Compose(g: seq<Glyph>, delta: seq<DeltaOp>): seq<Glyph>
    requires InBounds(delta, |g|)
    decreases |delta|
  {
    if delta == [] then g
    else
      var n := Consumes(delta[0], |g|).value;
      Produces(delta[0], g[..n]) + Compose(g[n..], delta[1..])
  }

  lemma {:induction false} EditAllConcat(g: seq<Glyph>, a: seq<Edit>, b: seq<Edit>)
    requires EditAllGlyphs(g, a).Some?
    ensures EditAllGlyphs(g, a + b) == EditAllGlyphs(EditAllGlyphs(g, a).value, b)
    decreases |a|
  {
    if a == [] {
      assert a + b == b;
    } else {
      assert (a + b)[1..] == a[1..] + b;
      EditAllConcat(EditGlyphs(g, a[0]).value, a[1..], b);
    }
  }

  lemma {:induction false} InsertsType(front: seq<Glyph>, g: seq<Glyph>, text: string, attrs: Marks)
    ensures EditAllGlyphs(front + g, Inserts(text, |front|, attrs)) == Some(front + Typed(text, attrs) + g)
    decreases |text|
  {
    if text == "" {
      assert front + Typed(text, attrs) + g == front + g;
    } else {
      var one := Glyph([text[0]], attrs);
      assert Splice(front + g, |front|, one) == front + [one] + g;
      InsertsType(front + [one], g, text[1..], attrs);
      assert Typed(text, attrs) == [one] + Typed(text[1..], attrs);
      assert front + Typed(text, attrs) + g == front + [one] + Typed(text[1..], attrs) + g;
    }
  }

  lemma {:induction false} DeletesHead(front: seq<Glyph>, g: seq<Glyph>, count: nat)
    requires 0 < count && g != []
    ensures EditAllGlyphs(front + g, Deletes(count, |front|))
         == EditAllGlyphs(front + g[1..], Deletes(count - 1, |front|))
  {
  }

  lemma {:induction false} DropTwice(g: seq<Glyph>, count: nat)
    requires 0 < count <= |g|
    ensures g[1..][count - 1..] == g[count..]
  {
  }

  lemma {:induction false} DeletesRemove(front: seq<Glyph>, g: seq<Glyph>, count: nat)
    requires count <= |g|
    ensures EditAllGlyphs(front + g, Deletes(count, |front|)) == Some(front + g[count..])
    decreases count
  {
    if count > 0 {
      DeletesHead(front, g, count);
      DeletesRemove(front, g[1..], count - 1);
      DropTwice(g, count);
    } else {
      assert g[0..] == g;
    }
  }

  lemma {:induction false} FormatRestyles(front: seq<Glyph>, g: seq<Glyph>, n: nat, attributes: Attributes)
    requires n <= |g| && DistinctKeys(attributes)
    ensures FormatRange(front + g, |front|, n, PatchOf(attributes)) == front + Restyled(g[..n], attributes) + g[n..]
  {
    var all, result := front + g, front + Restyled(g[..n], attributes) + g[n..];
    forall i | 0 <= i < |all| ensures FormatRange(all, |front|, n, PatchOf(attributes))[i] == result[i] {
      PatchRestyles(all[i].attrs, attributes);
    }
  }

  lemma {:induction false} EntryComposes(front: seq<Glyph>, g: seq<Glyph>, op: DeltaOp)
    requires DistinctKeys(op.attributes) && Consumes(op, |g|).Some? && Consumes(op, |g|).value <= |g|
    ensures var n := Consumes(op, |g|).value;
      && EditAllGlyphs(front + g, EditsOf(op, |front|)) == Some(front + Produces(op, g[..n]) + g[n..])
      && CursorAfter(op, |front|) == |front| + |Produces(op, g[..n])|
  {
    var n := Consumes(op, |g|).value;
    if op.retain.Some? {
      FormatRestyles(front, g, n, op.attributes);
      if PatchOf(op.attributes) == [] {
        assert FormatRange(front + g, |front|, n, []) == front + g;
      }
    } else if op.insert.Some? {
      InsertsType(front, g, op.insert.value.text, MarksOf(op.attributes));
    } else if op.delete.Some? {
      DeletesRemove(front, g, n);
      assert front + [] + g[n..] == front + g[n..];
    } else {
      assert front + [] + g[0..] == front + g;
    }
  }

  lemma {:induction false} ComposeHead(front: seq<Glyph>, g: seq<Glyph>, delta: seq<DeltaOp>)
    requires delta != [] && InBounds(delta, |g|)
    ensures var n := Consumes(delta[0], |g|).value;
      front + Compose(g, delta) == front + Produces(delta[0], g[..n]) + Compose(g[n..], delta[1..])
  {
  }

  lemma {:induction false} EditsHead(front: seq<Glyph>, g: seq<Glyph>, delta: seq<DeltaOp>)
    requires delta != [] && InBounds(delta, |g|)
    ensures var n := Consumes(delta[0], |g|).value;
      var next := front + Produces(delta[0], g[..n]);
      EditAllGlyphs(front + g, EditsFrom(delta, |front|)) == EditAllGlyphs(next + g[n..], EditsFrom(delta[1..], |next|))
  {
    var n := Consumes(delta[0], |g|).value;
    var next := front + Produces(delta[0], g[..n]);
    EntryComposes(front, g, delta[0]);
    assert EditsFrom(delta, |front|) == EditsOf(delta[0], |front|) + EditsFrom(delta[1..], |next|);
    EditAllConcat(front + g, EditsOf(delta[0], |front|), EditsFrom(delta[1..], |next|));
  }

  lemma {:induction false} EditsCompose(front: seq<Glyph>, g: seq<Glyph>, delta: seq<DeltaOp>)
    requires InBounds(delta, |g|)
    ensures EditAllGlyphs(front + g, EditsFrom(delta, |front|)) == Some(front + Compose(g, delta))
    decreases |delta|
  {
    if delta != [] {
      var n := Consumes(delta[0], |g|).value;
      EditsHead(front, g, delta);
      EditsCompose(front + Produces(delta[0], g[..n]), g[n..], delta[1..]);
      ComposeHead(front, g, delta);
    }
  }

  /**
   The translation preserves meaning: running the edits of an in-bounds delta never throws, and the visible
   attributed characters end up as the delta itself says.
   */
  lemma {:induction false} TranslationPreservesMeaning(d: Doc, replicaId: string, delta: seq<DeltaOp>)
    requires Sound(d) && InBounds(delta, |Glyphs(d)|)
    ensures var r := ApplyEdits(d, replicaId, EditsFrom(delta, 0));
      !r.thrown && Sound(r.doc) && Glyphs(r.doc) == Compose(Glyphs(d), delta)
  {
    ApplyEditsShow(d, replicaId, EditsFrom(delta, 0));
    EditsCompose([], Glyphs(d), delta);
    assert [] + Glyphs(d) == Glyphs(d);
    assert [] + Compose(Glyphs(d), delta) == Compose(Glyphs(d), delta);
  }
}
