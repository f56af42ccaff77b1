/** What the editor gets (packages/crdt/src/rga.ts). */
module EditorContents {
  import opened Ops
  import opened Document

  /** A text spread out over its characters, each with the marks of the text. */
  function SpreadText(text: string, attrs: Marks): seq<(char, Marks)> {
    seq(|text|, i requires 0 <= i < |text| => (text[i], attrs))
  }

  function SpreadGlyphs(glyphs: seq<Glyph>): seq<(char, Marks)> {
    if glyphs == [] then [] else SpreadText(glyphs[0].value, glyphs[0].attrs) + SpreadGlyphs(glyphs[1..])
  }

  function SpreadRuns(runs: seq<Run>): seq<(char, Marks)> {
    if runs == [] then [] else SpreadText(runs[0].text, runs[0].attrs) + SpreadRuns(runs[1..])
  }

  /** No two neighbours could be one run, and no run is empty. */
  predicate Maximal(runs: seq<Run>) {
    && (forall i :: 0 <= i < |runs| ==> runs[i].text != "")
    && (forall i :: 0 <= i < |runs| - 1 ==> runs[i].attrs != runs[i + 1].attrs)
  }

  lemma {:induction false} Regroup(a: seq<(char, Marks)>, b: seq<(char, Marks)>, c: seq<(char, Marks)>)
    ensures a + (b + c) == (a + b) + c
  {
  }

  lemma {:induction false} SpreadConcat(a: seq<Run>, b: seq<Run>)
    ensures SpreadRuns(a + b) == SpreadRuns(a) + SpreadRuns(b)
  {
    if a == [] {
      assert a + b == b;
    } else {
      SpreadConcat(a[1..], b);
      assert (a + b)[1..] == a[1..] + b && (a + b)[0] == a[0];
      Regroup(SpreadText(a[0].text, a[0].attrs), SpreadRuns(a[1..]), SpreadRuns(b));
    }
  }

  lemma {:induction false} SpreadFlush(text: string, attrs: Marks)
    ensures SpreadRuns(Flush(text, attrs)) == SpreadText(text, attrs)
  {
  }

  lemma {:induction false} CoalesceKeepsText(glyphs: seq<Glyph>, text: string, attrs: Marks)
    ensures SpreadRuns(Coalesce(glyphs, text, attrs)) == SpreadText(text, attrs) + SpreadGlyphs(glyphs)
    decreases |glyphs|
  {
    SpreadFlush(text, attrs);
    if glyphs != [] {
      var g := glyphs[0];
      if g.attrs != attrs {
        CoalesceKeepsText(glyphs[1..], g.value, g.attrs);
        SpreadConcat(Flush(text, attrs), Coalesce(glyphs[1..], g.value, g.attrs));
      } else {
        CoalesceKeepsText(glyphs[1..], text + g.value, attrs);
        assert SpreadText(text + g.value, attrs) == SpreadText(text, attrs) + SpreadText(g.value, attrs);
      }
    }
  }

  lemma {:induction false} CoalesceIsMaximal(glyphs: seq<Glyph>, text: string, attrs: Marks)
    requires forall i :: 0 <= i < |glyphs| ==> glyphs[i].value != ""
    ensures Maximal(Coalesce(glyphs, text, attrs))
    ensures text != "" ==> Coalesce(glyphs, text, attrs) != [] && Coalesce(glyphs, text, attrs)[0].attrs == attrs
    decreases |glyphs|
  {
    if glyphs != [] {
      var g := glyphs[0];
      CoalesceIsMaximal(glyphs[1..], if g.attrs != attrs then g.value else text + g.value, g.attrs);
    }
  }

  /**
   The editor is handed every visible character with exactly its marks, in order, and a newline; characters with
   the same marks come in one run as long as no character is the empty string.
   */
  lemma {:induction false} ContentsShowTheDocument(d: Doc)
    ensures SpreadRuns(Contents(d)) == SpreadGlyphs(Glyphs(d)) + [('\n', {})]
    ensures (forall i :: 0 <= i < |Glyphs(d)| ==> Glyphs(d)[i].value != "") ==> Maximal(Coalesce(Glyphs(d), "", {}))
  {
    CoalesceKeepsText(Glyphs(d), "", {});
    var newline := [Run("\n", {})];
    SpreadConcat(Coalesce(Glyphs(d), "", {}), newline);
    assert newline[1..] == [] && SpreadText("\n", {}) == [('\n', {})];
    if forall i :: 0 <= i < |Glyphs(d)| ==> Glyphs(d)[i].value != "" { CoalesceIsMaximal(Glyphs(d), "", {}); }
  }

  /** The characters without their marks. */
  function Plain(s: seq<(char, Marks)>): string {
    seq(|s|, i requires 0 <= i < |s| => s[i].0)
  }

  lemma {:induction false} PlainGlyphs(glyphs: seq<Glyph>)
    ensures Plain(SpreadGlyphs(glyphs)) == TextOf(glyphs)
  {
    if glyphs != [] {
      PlainGlyphs(glyphs[1..]);
      var first, rest := SpreadText(glyphs[0].value, glyphs[0].attrs), SpreadGlyphs(glyphs[1..]);
      assert Plain(first) == glyphs[0].value && Plain(first + rest) == Plain(first) + Plain(rest);
    }
  }

  /** The text of a replica is that of its runs, in order, but for the newline. */
  lemma {:induction false} ReadIsTheText(d: Doc)
    ensures Plain(SpreadRuns(Contents(d))) == Read(d) + "\n"
  {
    ContentsShowTheDocument(d);
    PlainGlyphs(Glyphs(d));
    assert Plain(SpreadGlyphs(Glyphs(d)) + [('\n', {})]) == Plain(SpreadGlyphs(Glyphs(d))) + "\n";
  }
}
