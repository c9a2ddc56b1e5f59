/** Why kept properties have to be closed by their own tag. */
module DocxLoose {
  import opened Prelude
  import opened Strings
  import opened Markup
  import opened DocxText
  import opened DocxScan
  import opened DocxParas
  import opened DocxParts
  import opened DocxStyle
  import opened DocxProps
  import opened DocxEdits
  import opened DocxFront
  import opened DocxApply
  import opened DocxPromise

  /** Run properties that are an empty tag with attributes: as a start tag they reach to any later closing tag. */
  predicate Loose(r: string) {
    StartTag(r, RUN_PROPS) == Some(|r|) && EmptyTag(r, RUN_PROPS) == Some(|r|)
  }

  lemma LooseEmpty(r: string, x: string)
    requires Loose(r)
    ensures EmptyTag(r + x, RUN_PROPS) == Some(|r|) && StartTag(r + x, RUN_PROPS) == Some(|r|)
  {
    StartTagKept(r, x, RUN_PROPS);
    if At(r, Opener(RUN_PROPS), 0) { AtChars(r, Opener(RUN_PROPS), 0, 6); }
    if At(r, SelfCloser(RUN_PROPS), 0) { AtChars(r, SelfCloser(RUN_PROPS), 0, 6); }
    if At(r, OpenerSpaced(RUN_PROPS), 0) { AtChars(r, OpenerSpaced(RUN_PROPS), 0, 6); }
    AtLeft(r, x, OpenerSpaced(RUN_PROPS), 0);
    AtLeft(r, x, SelfCloser(RUN_PROPS), 0);
    FirstKept(r, x, ">", |RUN_PROPS| + 2);
  }

  /** With no closing tag behind them they are what they look like. */
  lemma LooseAlone(r: string, x: string)
    requires Loose(r) && !Contains(x, Closer(RUN_PROPS))
    ensures ElementAt(r + x, RUN_PROPS) == Some(Empty(|r|))
  {
    hide At, StartTag, EmptyTag, Loose;
    LooseEmpty(r, x);
    IndexOfShift(r, x, Closer(RUN_PROPS), 0);
  }

  lemma LooseClosed(r: string, v: string)
    requires Loose(r) && Contains(v, Closer(RUN_PROPS))
    ensures ElementAt(r + v, RUN_PROPS).Some? && ElementAt(r + v, RUN_PROPS).value.len > |r|
  {
    hide At, StartTag, EmptyTag, Loose;
    LooseEmpty(r, v);
    IndexOfShift(r, v, Closer(RUN_PROPS), 0);
  }

  lemma RunsLackCloser(text: string)
    ensures !Contains(Body("", text) + CLOSE_RUN, Closer(RUN_PROPS))
  {
    hide Body, Contains;
    var c := Closer(RUN_PROPS);
    assert Foreign(c) by {
      assert c[1] != OPEN_RUN[1] && c[1] != OPEN_TEXT[1] && c[1] != BREAK[1] && c[1] != TAB[1];
      assert c[4] != CLOSE_TEXT[4] && c[5] != CLOSE_RUN[5];
    }
    SilentPlain("", c);
    SilentRuns(text, "", c);
    RunsHead(text, "");
    SuffixLacks(OPEN_RUN, "" + (Body("", text) + CLOSE_RUN), c);
    assert "" + (Body("", text) + CLOSE_RUN) == Body("", text) + CLOSE_RUN;
  }

  lemma SuffixLacks(a: string, b: string, p: string)
    requires !Contains(a + b, p)
    ensures !Contains(b, p)
  {
    if i :| 0 <= i <= |b| && At(b, p, i) { AtRight(a, b, p, |a| + i); }
  }

  lemma InfixContains(a: string, b: string, c: string, p: string)
    requires Contains(b, p)
    ensures Contains(a + (b + c), p)
  {
    var i :| 0 <= i <= |b| && At(b, p, i);
    AtBounds(b, p, i);
    AtLeft(b, c, p, i);
    AtRight(a, b + c, p, |a| + i);
  }

  /** Own properties a, then a run with loose properties r. */
  lemma LooseProps(a: string, r: string, x: string)
    requires Solid(a, PARA_PROPS) && a != "" && NoRun(a) && TagWhole(a) && Loose(r) && !Contains(x, Closer(RUN_PROPS))
    ensures var s := a + (OPEN_RUN + (r + x)); PPr(s) == a && RPr(s) == r
  {
    hide Solid, NoRun, TagWhole, Loose, Contains, PPr, RPr;
    PPrKept(a, OPEN_RUN + (r + x));
    LooseAlone(r, x);
    RPrBehind(a, r + x);
    assert (r + x)[..|r|] == r;
  }

  lemma LooseReaches(a: string, r: string, v: string)
    requires Solid(a, PARA_PROPS) && a != "" && NoRun(a) && TagWhole(a) && Loose(r) && Contains(v, Closer(RUN_PROPS))
    ensures var s := a + (OPEN_RUN + (r + v)); PPr(s) == a && |RPr(s)| > |r|
  {
    hide Solid, NoRun, TagWhole, Loose, Contains, PPr, RPr;
    PPrKept(a, OPEN_RUN + (r + v));
    LooseClosed(r, v);
    RPrBehind(a, r + v);
  }

  lemma SolidWhole(a: string)
    requires Solid(a, PARA_PROPS) && Contains(a, Closer(RUN_PROPS))
    ensures a != "" && TagWhole(a)
  {
    hide ElementAt;
    EndsWithTagWhole(a);
  }

  lemma RunsLonger(text: string, r: string, q: string)
    requires |q| > |r|
    ensures |Runs(text, q)| > |Runs(text, r)|
  {
    hide Body;
    RunsHead(text, q);
    RunsHead(text, r);
  }

  /** The cut of a copy's text at the old length: it holds the beginning of the paragraph behind the copy. */
  lemma LooseCut(open: string, a: string, r: string, rest: string, z: string, n: nat)
    requires Contains(a, Closer(RUN_PROPS)) && n >= |rest| + |CLOSE_P| + |open| + |a|
    requires n <= |rest + (CLOSE_P + (open + (a + z)))|
    ensures var v := rest + (CLOSE_P + (open + (a + z)));
      Contains(v[..n], Closer(RUN_PROPS)) && (a + (OPEN_RUN + (r + v)))[..|a| + 5 + |r| + n] == a + (OPEN_RUN + (r + v[..n]))
  {
    hide Contains;
    var m := n - |rest| - |CLOSE_P| - |open| - |a|;
    var v := rest + (CLOSE_P + (open + (a + z)));
    assert v[..n] == (rest + (CLOSE_P + open)) + (a + z[..m]);
    InfixContains(rest + (CLOSE_P + open), a, z[..m], Closer(RUN_PROPS));
  }

  /** What the second insertion renders is longer than the copy it should make. */
  lemma LooseRendered(doc: string, s: string, b: string, open: string, a: string, r: string, x: string, z: string, first: string, second: string)
    requires Solid(a, PARA_PROPS) && NoRun(a) && Contains(a, Closer(RUN_PROPS)) && Loose(r) && !Contains(x, Closer(RUN_PROPS))
    requires |x| > |Runs(first, "")| + |open| + |a|
    requires var p := Full(open, a + (OPEN_RUN + (r + x))); s == b + (PieceText(Rewrite(p, first)) + (PieceText(p) + z))
    ensures var p := Full(open, a + (OPEN_RUN + (r + x)));
      var q := ParaFor(doc, p, |b|);
      && Reaches(s, q) && q.start == |b| && !q.selfClosed
      && |Rendered(s, q, second)| > |open| + |a| + |Runs(second, r)| + |CLOSE_P|
  {
    hide Solid, NoRun, Contains, Loose, PPr, RPr, Runs, InTable, ParaFor, Body;
    var inner := a + (OPEN_RUN + (r + x));
    var p, rest := Full(open, inner), Body("", first) + CLOSE_RUN;
    var tail := (OPEN_RUN + (r + x)) + (CLOSE_P + z);
    SolidWhole(a);
    LooseProps(a, r, x);
    RunsHead(first, r);
    RunsHead(first, "");
    var v := rest + (CLOSE_P + (open + (a + tail)));
    var w := a + (OPEN_RUN + (r + v));
    FullExtent(doc, p, |b|);
    assert s == b + (open + w) by { LooseText(open, a, r, x, rest, z); }
    LooseCut(open, a, r, rest, tail, |x|);
    CopySlices(b, open, w, |inner|);
    LooseReaches(a, r, v[..|x|]);
    RunsLonger(second, r, RPr(w[..|inner|]));
  }

  lemma LooseText(open: string, a: string, r: string, x: string, rest: string, z: string)
    ensures var inner := a + (OPEN_RUN + (r + x));
      (open + ((a + (OPEN_RUN + (r + rest))) + CLOSE_P)) + ((open + (inner + CLOSE_P)) + z)
      == open + (a + (OPEN_RUN + (r + (rest + (CLOSE_P + (open + (a + ((OPEN_RUN + (r + x)) + (CLOSE_P + z)))))))))
  {
  }

  /** The cells of one and of two insertions in front. */
  lemma CopyCells(p: Piece, e: Edit, f: Edit)
    requires Front(e) && Front(f) && Rewrite(Rewrite(p, e.text), f.text) == Rewrite(p, f.text)
    ensures CellOf(p, []) == Cell(Some(p), []) && Applied(Cell(Some(p), []), e) == CellOf(p, [e]) == Cell(Some(Rewrite(p, e.text)), [p])
    ensures EditsOf([e], 0) == [e] && EditsOf([], 0) == []
  {
    hide Rewrite;
    Ops();
    OneCell(p, e);
    OneEditOf(e, 0);
    assert [p] + [] == [p];
  }

  lemma OnePiece(p: Piece, z: string)
    ensures PiecesText([p]) + z == PieceText(p) + z && PiecesText([]) == ""
  {
    hide PieceText;
    assert [p][1..] == [];
  }

  /** The list edited twice in front: two copies of the paragraph, the latest first. */
  lemma TwoCopies(d: Doc, e: Edit, f: Edit)
    requires Size(d) > 0 && Front(e) && Front(f)
    requires Rewrite(Rewrite(PieceAt(d, 0), e.text), f.text) == Rewrite(PieceAt(d, 0), f.text)
    ensures var p, z := PieceAt(d, 0), Text(After(d, 0));
      && Text(EditDoc(d, [e])) == Before(d, 0) + (PieceText(Rewrite(p, e.text)) + (PieceText(p) + z))
      && Text(EditDoc(d, [e, f])) == Before(d, 0) + (PieceText(Rewrite(p, f.text)) + (PieceText(Rewrite(p, e.text)) + (PieceText(p) + z)))
  {
    hide Rewrite, PieceText, PiecesText, CellText, EditFrom, EditDoc, EditsOf, CellOf, Applied, Before, After, Text, Size, PieceAt;
    Ops();
    var p, z := PieceAt(d, 0), Text(After(d, 0));
    assert [] + [e] == [e] && [e] + [f] == [e, f];
    CopyCells(p, e, f);
    OneMore(d, [], e);
    OneMore(d, [e], f);
    NoEdits(After(d, 0), 1);
    NothingAfter(After(d, 0), e, 1);
    AppliedText(Cell(Some(p), []), e, z);
    AppliedText(Cell(Some(Rewrite(p, e.text)), [p]), f, z);
    assert "" + z == z;
    OnePiece(p, z);
  }

  /**
   * Without that, the promise fails: own properties that hold a closing tag of run properties, a run with loose
   * properties and enough content. The second insertion in front takes the text up to that closing tag for properties.
   */
  lemma LooseTwice(doc: string, open: string, a: string, r: string, x: string, first: string, second: string)
    requires Size(Segment(doc)) > 0 && PieceAt(Segment(doc), 0) == Full(open, a + (OPEN_RUN + (r + x)))
    requires Solid(a, PARA_PROPS) && NoRun(a) && Contains(a, Closer(RUN_PROPS)) && Loose(r) && !Contains(x, Closer(RUN_PROPS))
    requires |x| > |Runs(first, "")| + |open| + |a|
    ensures var es := [Edit(INSERT, -1, first), Edit(INSERT, -1, second)];
      Patched(doc, es) != Success(Text(EditDoc(Segment(doc), Sorted(es))))
  {
    hide Segment, Extents, EditDoc, Execute, Sorted, Before, After, Text, Solid, NoRun, Contains, Loose, PPr, RPr, Runs, ParaFor, HasNonText, Rendered, Reaches;
    var d, e, f := Segment(doc), Edit(INSERT, -1, first), Edit(INSERT, -1, second);
    var p, b, z := PieceAt(d, 0), Before(d, 0), Text(After(d, 0));
    Ops();
    LooseRewrite(open, a, r, x, first, second);
    TwoCopies(d, e, f);
    OneWorks(doc, e);
    SortTwo(e, f);
    ExecuteSecond(doc, Extents(doc, d, 0), e, f);
    ExtentAt(doc, d, 0, 0);
    var s := Text(EditDoc(d, [e]));
    LooseRendered(doc, s, b, open, a, r, x, z, first, second);
  }

  lemma LooseRewrite(open: string, a: string, r: string, x: string, first: string, second: string)
    requires Solid(a, PARA_PROPS) && NoRun(a) && Contains(a, Closer(RUN_PROPS)) && Loose(r) && !Contains(x, Closer(RUN_PROPS))
    ensures var p := Full(open, a + (OPEN_RUN + (r + x)));
      && Rewrite(p, second) == Full(open, a + Runs(second, r))
      && Rewrite(Rewrite(p, first), second) == Rewrite(p, second)
  {
    hide Solid, NoRun, Contains, Loose, PPr, RPr, Runs, Body;
    SolidWhole(a);
    LooseProps(a, r, x);
    RunsHead(first, r);
    RunsLackCloser(first);
    LooseProps(a, r, Body("", first) + CLOSE_RUN);
  }
}
