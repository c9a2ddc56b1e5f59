/** When the patcher keeps its promise, edit by edit, and what it writes instead when it does not. */
module DocxPromise {
  import opened Prelude
  import opened Strings
  import opened Markup
  import opened DocxText
  import opened DocxScan
  import opened DocxParas
  import opened DocxParts
  import opened DocxStyle
  import opened DocxProps
  import opened DocxEdits
  import opened DocxFront
  import opened DocxApply

  // ------------------------------------------------------------ in front of an empty tag

  /** The start tag that an empty tag is rewritten to. */
  function Opened(tag: string): string {
    TrimTag(tag) + ">"
  }

  predicate EmptyParagraph(tag: string) {
    OneTag(tag) && tag[|tag| - 2] == '/'
  }

  lemma OpenedTag(tag: string)
    requires EmptyParagraph(tag)
    ensures |Opened(tag)| == |tag| - 1 && Opened(tag)[|tag| - 2] == '>'
  {
    assert tag[|tag| - 2..] == "/>";
  }

  /** What an insertion in front finds where the empty tag was: the start tag of the copy, and the next bracket. */
  lemma CopyHead(doc: string, tag: string, s: string, a: string, y: string, text: string)
    requires EmptyParagraph(tag) && s == a + (Opened(tag) + ("<" + y))
    ensures var q := ParaFor(doc, Closed(tag), |a|);
      && Reaches(s, q) && q.start == |a| && q.end == |a| + |tag| && q.selfClosed
      && Rendered(s, q, text) == Opened(tag) + ("<>" + Runs(text, "") + CLOSE_P)
  {
    hide InTable, Runs, EmptyParagraph, TrimTag, Opened;
    OpenedTag(tag);
    HeadSlice(a, Opened(tag), y);
    NotTrimmed(Opened(tag), tag);
    Angle(Opened(tag), Runs(text, ""), CLOSE_P);
  }

  lemma NotTrimmed(o: string, tag: string)
    ensures TrimTag(o + "<") == o + "<"
  {
    var x := o + "<";
    if |x| >= 2 { assert x[|x| - 2..][1] == '<' && "/>"[1] == '>'; }
  }

  lemma HeadSlice(a: string, o: string, y: string)
    ensures var s := a + (o + ("<" + y)); |a| + |o| + 1 <= |s| && s[|a|..|a| + |o| + 1] == o + "<"
  {
  }

  lemma Angle(o: string, r: string, c: string)
    ensures ((o + "<") + ">" + r) + c == o + ("<>" + r + c)
  {
    assert "<" + ">" == "<>";
  }

  lemma EmptyStep(doc: string, d: Doc, e: Edit, tag: string, s: string, y: string)
    requires Size(d) > 0 && PieceAt(d, 0) == Closed(tag) && EmptyParagraph(tag) && Front(e)
    requires s == Before(d, 0) + (Opened(tag) + ("<" + y))
    ensures EditOnce(s, Extents(doc, d, 0), e)
         == Success(Before(d, 0) + (Opened(tag) + ("<" + (">" + Runs(e.text, "") + CLOSE_P + (Opened(tag) + ("<" + y))))))
  {
    hide Extents, Before, Rendered, Runs, EmptyParagraph, Opened, HasNonText;
    Ops();
    var a, x := Before(d, 0), Opened(tag) + ("<" + y);
    ExtentAt(doc, d, 0, 0);
    CopyHead(doc, tag, s, a, y, e.text);
    SpliceIs(s, a, "", x, Opened(tag) + ("<>" + Runs(e.text, "") + CLOSE_P));
    assert "" + x == x && s == a + ("" + x);
    Bracketing(Opened(tag), Runs(e.text, ""), CLOSE_P, x);
  }

  lemma Bracketing(o: string, r: string, c: string, x: string)
    ensures (o + ("<>" + r + c)) + x == o + ("<" + (">" + r + c + x))
  {
    assert "<>" == "<" + ">";
  }

  /** One more copy lengthens the edited list by itself and the text by two characters more. */
  lemma OneMoreLength(d: Doc, done: seq<Edit>, e: Edit, tag: string, text: string)
    requires Size(d) > 0 && PieceAt(d, 0) == Closed(tag) && Front(e)
    requires CellOf(PieceAt(d, 0), EditsOf(done, 0)).lead == Some(Rewrite(Closed(tag), text))
    ensures |Text(EditDoc(d, done + [e]))| == |Text(EditDoc(d, done))| + |Opened(tag)| + |Runs(e.text, "")| + |CLOSE_P|
    ensures CellOf(PieceAt(d, 0), EditsOf(done + [e], 0)).lead == Some(Rewrite(Closed(tag), e.text))
    ensures exists y :: Text(EditDoc(d, done)) == Before(d, 0) + (Opened(tag) + ("<" + y))
  {
    hide EditDoc, CellText, PiecesText, EditFrom, EditsOf, CellOf, Applied, Before, After, Runs, TrimTag, Text, Size, PieceAt, NewInner;
    Ops();
    var p := PieceAt(d, 0);
    var c := CellOf(p, EditsOf(done, 0));
    var z := Text(EditFrom(After(d, 0), done, 1));
    assert Applied(c, e).lead == Some(Rewrite(c.lead.value, e.text)) by { FrontLead(c, e); }
    OneMore(d, done, e);
    LeadText(c, z);
    AppliedText(c, e, z);
    RewriteTwice(p, text, e.text);
    EditsOfSnoc(done, e, 0);
    CellOfSnoc(p, EditsOf(done, 0), e);
    var y := RunsBracket(text, CLOSE_P + (PiecesText(c.tail) + z));
    CopyTextIs(Opened(tag), Runs(text, ""), CLOSE_P, PiecesText(c.tail) + z);
  }

  lemma FrontLead(c: Cell<Piece>, e: Edit)
    requires c.lead.Some? && Front(e)
    ensures Applied(c, e).lead == Some(Rewrite(c.lead.value, e.text))
  {
    hide Rewrite;
    Ops();
  }

  lemma RunsBracket(text: string, w: string) returns (y: string)
    ensures Runs(text, "") + w == "<" + y
  {
    hide Body;
    RunsHead(text, "");
    y := (Runs(text, "") + w)[1..];
    assert OPEN_RUN[0] == '<';
  }

  lemma CopyTextIs(o: string, r: string, c: string, z: string)
    ensures (o + (r + c)) + z == o + (r + (c + z))
  {
    Assoc(o, r + c, z);
    Assoc(r, c, z);
  }

  /** From the first copy on, every insertion in front of an empty tag leaves two characters too many. */
  lemma {:induction false} EmptyFronts(doc: string, d: Doc, es: seq<Edit>, tag: string, j: nat, k: nat) returns (y: string)
    requires Size(d) > 0 && PieceAt(d, 0) == Closed(tag) && EmptyParagraph(tag) && 1 <= j <= k <= |es|
    requires forall m :: j - 1 <= m < |es| ==> Front(es[m])
    requires Execute(doc, Extents(doc, d, 0), es[..j]) == Success(Text(EditDoc(d, es[..j])))
    requires CellOf(PieceAt(d, 0), EditsOf(es[..j], 0)).lead == Some(Rewrite(Closed(tag), es[j - 1].text))
    ensures Execute(doc, Extents(doc, d, 0), es[..k]) == Success(Before(d, 0) + (Opened(tag) + ("<" + y)))
    ensures |Before(d, 0) + (Opened(tag) + ("<" + y))| == |Text(EditDoc(d, es[..k]))| + 2 * (k - j)
    ensures CellOf(PieceAt(d, 0), EditsOf(es[..k], 0)).lead == Some(Rewrite(Closed(tag), es[k - 1].text))
    decreases k - j
  {
    hide Extents, EditDoc, EditFrom, EditsOf, CellOf, Before, Runs, Opened, EditOnce, Execute, Rewrite, EmptyParagraph;
    var a, o := Before(d, 0), Opened(tag);
    if k == j {
      OneMoreLength(d, es[..j], es[j - 1], tag, es[j - 1].text);
      y :| Text(EditDoc(d, es[..j])) == a + (o + ("<" + y));
    } else {
      var e := es[k - 1];
      var y' := EmptyFronts(doc, d, es, tag, j, k - 1);
      assert es[..k] == es[..k - 1] + [e];
      ExecuteStep(doc, Extents(doc, d, 0), es, k - 1);
      EmptyStep(doc, d, e, tag, a + (o + ("<" + y')), y');
      OneMoreLength(d, es[..k - 1], e, tag, es[k - 2].text);
      y := ">" + Runs(e.text, "") + CLOSE_P + (o + ("<" + y'));
    }
  }

  lemma FirstWorks(d: Doc, e: Edit)
    requires Target(e) < Size(d)
    ensures Settled(d, [], e)
  {
  }

  /**
   * Several insertions in front of the first paragraph give the edited list if and only if that paragraph is not an
   * empty tag.
   */
  lemma FrontAgain(doc: string, es: seq<Edit>)
    requires Size(Segment(doc)) > 0 && Tidy(PieceAt(Segment(doc), 0))
    requires |es| >= 2 && forall e :: e in es ==> Front(e)
    ensures Patched(doc, es) == Success(Text(EditDoc(Segment(doc), Sorted(es)))) <==> PieceAt(Segment(doc), 0).Full?
  {
    hide Tidy, PieceOk, Segment, EditDoc, Sorted, Execute, Extents, Valid, AllWork;
    var d, ordered := Segment(doc), Sorted(es);
    SegmentShaped(doc);
    FirstOk(d);
    SortedFacts(es);
    match PieceAt(d, 0)
    case Full(_, _) =>
      FrontsWork(d, ordered);
      forall e | e in es ensures Valid(d, e) { FrontIsValid(d, e); }
      AppliesEdits(doc, es);
    case Closed(tag) =>
      assert |ordered| == |es| by { SameLength(ordered, es); }
      EmptyAgain(doc, ordered, tag);
  }

  lemma FirstOk(d: Doc)
    requires Shaped(d) && Size(d) > 0
    ensures PieceOk(PieceAt(d, 0))
  {
  }

  lemma SameLength(a: seq<Edit>, b: seq<Edit>)
    requires multiset(a) == multiset(b)
    ensures |a| == |b|
  {
    assert |multiset(a)| == |a| && |multiset(b)| == |b|;
  }

  lemma EmptyIs(tag: string)
    requires PieceOk(Closed(tag))
    ensures EmptyParagraph(tag)
  {
  }

  lemma EmptyAgain(doc: string, es: seq<Edit>, tag: string)
    requires Size(Segment(doc)) > 0 && PieceAt(Segment(doc), 0) == Closed(tag) && PieceOk(Closed(tag))
    requires |es| >= 2 && (forall e :: e in es ==> Front(e)) && Descending(es)
    ensures Execute(doc, Extents(doc, Segment(doc), 0), es) != Success(Text(EditDoc(Segment(doc), es)))
  {
    hide PieceOk, Segment, EditDoc, Execute, Extents, Valid, Rewrite, EmptyParagraph, Runs;
    var d := Segment(doc);
    var e := es[0];
    assert e in es;
    EmptyIs(tag);
    assert es[..1] == [e];
    FirstWorks(d, e);
    OneWorks(doc, e);
    OneFront(d, e, tag);
    forall m | 0 <= m < |es| ensures Front(es[m]) { assert es[m] in es; }
    var y := EmptyFronts(doc, d, es, tag, 1, |es|);
    assert es[..|es|] == es;
  }

  lemma OneWorks(doc: string, e: Edit)
    requires Front(e) && Size(Segment(doc)) > 0
    ensures Execute(doc, Extents(doc, Segment(doc), 0), [e]) == Success(Text(EditDoc(Segment(doc), [e])))
  {
    hide Segment, EditDoc, Extents, Valid, Execute, Settled;
    var d := Segment(doc);
    FirstWorks(d, e);
    assert [e][..0] == [];
    WorkingExecutes(doc, [e]);
    FrontIsValid(d, e);
  }

  lemma OneFront(d: Doc, e: Edit, tag: string)
    requires Size(d) > 0 && PieceAt(d, 0) == Closed(tag) && Front(e)
    ensures CellOf(PieceAt(d, 0), EditsOf([e], 0)).lead == Some(Rewrite(Closed(tag), e.text))
  {
    hide Rewrite;
    Ops();
    var es := [e];
    assert es[..0] == [];
    assert EditsOf(es, 0) == [] + [e];
    assert CellOf(PieceAt(d, 0), [e]) == Applied(Cell(Some(Closed(tag)), []), e);
  }

  /** The input: two insertions in front of an empty tag leave markup that is not well formed. */
  lemma EmptyTwice(doc: string, gap: string, rest: Doc, first: string, second: string)
    requires Segment(doc) == Seg(gap, Closed("<w:p/>"), rest)
    ensures Patched(doc, [Edit(INSERT, -1, first), Edit(INSERT, -1, second)])
         == Success(gap + ("<w:p>" + ("<>" + Runs(second, "") + CLOSE_P) + ("<w:p>" + (Runs(first, "") + CLOSE_P) + ("<w:p/>" + Text(rest)))))
  {
    hide Extents, Runs, EditOnce, Sorted, Execute, EditDoc;
    var d, e, f := Segment(doc), Edit(INSERT, -1, first), Edit(INSERT, -1, second);
    var tag := "<w:p/>";
    Ops();
    EmptyTagOpened();
    assert [e][..0] == [];
    OneWorks(doc, e);
    var s := gap + ("<w:p>" + (Runs(first, "") + CLOSE_P) + (tag + Text(rest)));
    FirstText(gap, tag, rest, e);
    SortTwo(e, f);
    ExecuteSecond(doc, Extents(doc, d, 0), e, f);
    var y := RunsBracket(first, CLOSE_P + (tag + Text(rest)));
    CopyTextIs("<w:p>", Runs(first, ""), CLOSE_P, tag + Text(rest));
    assert s == gap + ("<w:p>" + ("<" + y));
    EmptyStep(doc, d, f, tag, s, y);
    SecondText(gap, Runs(second, ""), CLOSE_P, "<w:p>", "<" + y);
  }

  lemma SecondText(gap: string, r: string, c: string, o: string, z: string)
    ensures gap + (o + ("<" + (">" + r + c + (o + z)))) == gap + (o + ("<>" + r + c) + (o + z))
  {
    assert "<>" == "<" + ">";
  }

  lemma EmptyTagOpened()
    ensures Opened("<w:p/>") == "<w:p>" && EmptyParagraph("<w:p/>") && PieceOk(Closed("<w:p/>"))
  {
    var t := "<w:p/>";
    assert t[0..5] == "<w:p/" && t[4..] == "/>";
    assert TrimTag(t) == t[..4] == "<w:p";
  }

  lemma FirstText(gap: string, tag: string, rest: Doc, e: Edit)
    requires Front(e) && tag == "<w:p/>"
    ensures Text(EditDoc(Seg(gap, Closed(tag), rest), [e]))
         == gap + ("<w:p>" + (Runs(e.text, "") + CLOSE_P) + (tag + Text(rest)))
  {
    hide Runs, EditFrom;
    var d := Seg(gap, Closed(tag), rest);
    EmptyTagOpened();
    Ops();
    FirstWorks(d, e);
    OneMore(d, [], e);
    assert [] + [e] == [e];
    LeadText(Cell(Some(Closed(tag)), []), Text(EditFrom(rest, [], 1)));
    AppliedText(Cell(Some(Closed(tag)), []), e, Text(EditFrom(rest, [], 1)));
    NoEdits(rest, 1);
    assert "" + Text(rest) == Text(rest);
  }

  // ----------------------------------------------------------------- setting at a stale extent

  /** Sets and insertions behind leave the paragraph, or a rewriting of it, in front. */
  lemma {:induction false} LeadRewritten(p: Piece, es: seq<Edit>) returns (text: string)
    requires Tidy(p) && forall e :: e in es ==> e.index >= 0
    ensures var lead := CellOf(p, es).lead; lead.Some? ==> lead.value == p || lead.value == Rewrite(p, text)
  {
    hide Tidy, Rewrite;
    Ops();
    if es == [] {
      text := "";
    } else {
      var init, e := es[..|es| - 1], es[|es| - 1];
      assert es == init + [e];
      text := LeadRewritten(p, init);
      assert e in es;
      if CellOf(p, init).lead.Some? && e.op == SET {
        RewriteTwice(p, text, e.text);
        text := e.text;
      }
    }
  }

  lemma {:induction false} RPrHead(s: string)
    ensures RPr(s) == "" || (|RPr(s)| >= 6 && RPr(s)[..6] == PROPS_HEAD)
    decreases |s|
  {
    hide ElementAt, StartTag;
    if s == "" {
    } else {
      match RunPrAt(s)
      case None => RPrHead(s[1..]);
      case Some(r) => RunPrHead(s);
    }
  }

  lemma RunPrHead(s: string)
    requires RunPrAt(s).Some?
    ensures |RunPrAt(s).value| >= 6 && RunPrAt(s).value[..6] == PROPS_HEAD
  {
    hide StartTag, At, IndexOf, Starts;
    var x := s[StartTag(s, RUN).value..];
    var n := ElementAt(x, RUN_PROPS).value.len;
    if !Starts(x, RUN_PROPS, 0) { NoStartNoElement(x, RUN_PROPS); }
    PropsHead(x, 0);
    ElementLong(x);
    AtHead(x, PROPS_HEAD);
    assert RunPrAt(s).value == x[..n];
  }

  lemma AtHead(x: string, p: string)
    requires At(x, p, 0)
    ensures |p| <= |x| && x[..|p|] == p
  {
  }

  lemma ElementLong(x: string)
    requires ElementAt(x, RUN_PROPS).Some?
    ensures 6 <= ElementAt(x, RUN_PROPS).value.len <= |x|
  {
    hide At;
  }

  /** What is written behind a run's tag is not run properties. */
  lemma {:induction false} BodyHead(cur: string, text: string)
    ensures var s := Body(cur, text) + CLOSE_RUN; |s| >= 6 && s[3] != 'r'
    decreases |text|
  {
    hide Escape;
    if text == "" {
      assert cur != "" ==> (Flush(cur) + CLOSE_RUN)[3] == OPEN_TEXT[3];
    } else if text[0] == '\n' || text[0] == '\t' {
      assert BREAK[3] == 'b' && TAB[3] == 't' && OPEN_TEXT[3] == 't';
    } else {
      BodyHead(cur + [text[0]], text[1..]);
    }
  }

  lemma Apart(a: string, o: string, x: string, y: string, k: nat)
    requires k < |x| && k < |y| && x[k] != y[k]
    ensures a + (o + x) != a + (o + y)
  {
    assert (a + (o + x))[|a| + |o| + k] == x[k] && (a + (o + y))[|a| + |o| + k] == y[k];
  }

  /** What a set writes from content that has other run properties than the paragraph had is something else. */
  lemma OtherProps(a: string, open: string, props: string, r: string, text: string, c: string, z: string, w: string)
    requires |r| >= 6 && r[..6] == PROPS_HEAD
    ensures a + ((open + (props + Runs(text, r)) + c) + z) != a + ((open + (props + Runs(text, "")) + c) + w)
  {
    hide Body;
    var b := Body("", text) + CLOSE_RUN;
    BodyHead("", text);
    RunsHead(text, r);
    RunsHead(text, "");
    assert "" + b == b && r[3] == r[..6][3] == 'r';
    var o := open + (props + OPEN_RUN);
    Join6(open, props, OPEN_RUN, r + b, c, z);
    Join6(open, props, OPEN_RUN, b, c, w);
    Apart(a, o, (r + b) + (c + z), b + (c + w), 3);
  }

  lemma Join6(open: string, props: string, o: string, x: string, c: string, z: string)
    ensures (open + (props + (o + x)) + c) + z == (open + (props + o)) + (x + (c + z))
  {
  }

  lemma StaleFull(doc: string, s: string, p: Piece, a: string, was: string, w: string, text: string)
    requires p.Full? && Tidy(p) && s == a + (PieceText(Rewrite(p, was)) + w)
    requires |PieceText(Rewrite(p, was))| != |PieceText(p)|
    requires var q := ParaFor(doc, p, |a|); Reaches(s, q) && q.end <= |s|
    ensures var q := ParaFor(doc, p, |a|);
      s[..q.start] + Rendered(s, q, text) + s[q.end..] != a + (PieceText(Rewrite(p, text)) + w)
  {
    hide Tidy, PPr, RPr, Runs, InTable, ParaFor;
    var n := |p.inner|;
    var v := NewInner(p.inner, was) + (CLOSE_P + w);
    FullExtent(doc, p, |a|);
    assert s == a + (p.open + v) by { CopyText4(p.open, NewInner(p.inner, was), CLOSE_P, w); }
    CopySlices(a, p.open, v, n);
    var cut := v[..n];
    CutOwn(p, was, CLOSE_P + w);
    var q := ParaFor(doc, p, |a|);
    var z := s[q.end..];
    assert s[..q.start] == a;
    CutProps(p, was, w, cut);
    Assoc(p.open, NewInner(p.inner, text), CLOSE_P);
    if RPr(cut) == RPr(p.inner) {
      SameProps(cut, p.inner, text);
    } else {
      Assoc(a, p.open + NewInner(cut, text) + CLOSE_P, z);
      OtherProps(a, p.open, PPr(p.inner), RPr(cut), text, CLOSE_P, z, w);
    }
  }

  /** The run properties found in the cut are the paragraph's, or others where it had none. */
  lemma CutProps(p: Piece, was: string, w: string, cut: string)
    requires p.Full? && Tidy(p) && |p.inner| <= |NewInner(p.inner, was) + (CLOSE_P + w)|
    requires cut == (NewInner(p.inner, was) + (CLOSE_P + w))[..|p.inner|]
    ensures RPr(cut) == RPr(p.inner) || (RPr(p.inner) == "" && |RPr(cut)| >= 6 && RPr(cut)[..6] == PROPS_HEAD)
  {
    hide Tidy, PPr, RPr, Runs, NewInner;
    RPrHead(cut);
    if RPr(p.inner) != "" { CutKeeps(p, was, CLOSE_P + w); }
  }

  lemma StaleEmpty(doc: string, s: string, tag: string, a: string, was: string, w: string, text: string)
    requires EmptyParagraph(tag) && s == a + (PieceText(Rewrite(Closed(tag), was)) + w)
    ensures var q := ParaFor(doc, Closed(tag), |a|);
      && Reaches(s, q) && q.end <= |s|
      && s[..q.start] + Rendered(s, q, text) + s[q.end..] != a + (PieceText(Rewrite(Closed(tag), text)) + w)
  {
    hide InTable, ParaFor, Runs, EmptyParagraph, TrimTag, Reaches, Rendered;
    var o := Opened(tag);
    var y := RunsBracket(was, CLOSE_P + w);
    CopyTextIs(o, Runs(was, ""), CLOSE_P, w);
    CopyHead(doc, tag, s, a, y, text);
    EmptyEnds(doc, tag, |a|, s);
    var q := ParaFor(doc, Closed(tag), |a|);
    var z := s[q.end..];
    assert s[..q.start] == a;
    var x := "<>" + Runs(text, "") + CLOSE_P;
    Assoc(a, o + x, z);
    Assoc(o, x, z);
    CopyTextIs(o, Runs(text, ""), CLOSE_P, w);
    RunsSecond(text, CLOSE_P + w);
    Apart(a, o, x + z, Runs(text, "") + (CLOSE_P + w), 1);
  }

  lemma RunsSecond(text: string, w: string)
    ensures var s := Runs(text, "") + w; |s| > 1 && s[1] == 'w'
  {
    hide Body;
    RunsHead(text, "");
    assert OPEN_RUN[1] == 'w';
  }

  lemma EmptyEnds(doc: string, tag: string, start: nat, s: string)
    requires Reaches(s, ParaFor(doc, Closed(tag), start))
    ensures ParaFor(doc, Closed(tag), start).end <= |s|
  {
    hide InTable;
  }

  /**
   * A set of a paragraph that is still there, and may be set, gives the edited list if and only if the paragraph is
   * as long as it was.
   */
  lemma StaleSetting(doc: string, d: Doc, done: seq<Edit>, e: Edit)
    requires e.op == SET && 0 <= e.index < Size(d) && forall f :: f in done ==> f.index >= e.index
    requires Tidy(PieceAt(d, e.index)) && PieceOk(PieceAt(d, e.index))
    requires var lead := CellOf(PieceAt(d, e.index), EditsOf(done, e.index)).lead; lead.Some? && Takes(lead.value, e)
    ensures EditOnce(Text(EditDoc(d, done)), Extents(doc, d, 0), e) == Success(Text(EditDoc(d, done + [e])))
       <==> Settled(d, done, e)
  {
    hide PieceText, Rewrite, Extents, Rendered, EditDoc, HasNonText, CellText, PiecesText, EditFrom, Applied, CellOf, EditsOf, Before, After, Size, Tidy, PieceOk, Reaches, EditOnce;
    Ops();
    var n := e.index;
    var p := PieceAt(d, n);
    var c := CellOf(p, EditsOf(done, n));
    if Settled(d, done, e) {
      SettledStep(doc, d, done, e);
    } else {
      EditsOfMembers(done, n);
      var was := LeadRewritten(p, EditsOf(done, n));
      var a, z := Before(d, n), Text(EditFrom(After(d, n), done, n + 1));
      var w := PiecesText(c.tail) + z;
      OneMore(d, done, e);
      LeadText(c, z);
      AppliedText(c, e, z);
      RewriteTwice(p, was, e.text);
      ExtentsLength(doc, d, 0);
      ExtentAt(doc, d, 0, n);
      StaleOutcome(doc, p, a, was, w, Extents(doc, d, 0), e);
    }
  }

  lemma StaleOutcome(doc: string, p: Piece, a: string, was: string, w: string, paras: seq<Para>, e: Edit)
    requires e.op == SET && 0 <= e.index < |paras| && paras[e.index] == ParaFor(doc, p, |a|)
    requires Tidy(p) && PieceOk(p) && |PieceText(Rewrite(p, was))| != |PieceText(p)|
    ensures EditOnce(a + (PieceText(Rewrite(p, was)) + w), paras, e) != Success(a + (PieceText(Rewrite(p, e.text)) + w))
  {
    hide PieceText, Rewrite, Rendered, HasNonText, Tidy, PieceOk, Reaches;
    Ops();
    var s := a + (PieceText(Rewrite(p, was)) + w);
    match p
    case Closed(tag) =>
      EmptyIs(tag);
      StaleEmpty(doc, s, tag, a, was, w, e.text);
    case Full(_, _) =>
      var q := ParaFor(doc, p, |a|);
      if Reaches(s, q) && q.end <= |s| { StaleFull(doc, s, p, a, was, w, e.text); }
  }

  /**
   * After a deletion there is no such converse: a set of the deleted paragraph can write what stands there by then,
   * and leave the edited list, in which it changes nothing.
   */
  lemma StaleSetCoincides(doc: string, text: string)
    ensures var p := Rewrite(Closed("<w:p/>"), text);
      var d, del, put := Seg("", p, Seg("", p, Tail(""))), Edit(DELETE, 0, ""), Edit(SET, 0, text);
      && !Settled(d, [del], put)
      && EditOnce(Text(EditDoc(d, [del])), Extents(doc, d, 0), put) == Success(Text(EditDoc(d, [del, put])))
  {
    hide Runs, Extents, Rendered, HasNonText, TrimTag, PieceText, Reaches, EditDoc, CellOf, EditsOf;
    Ops();
    var p := Rewrite(Closed("<w:p/>"), text);
    var d, del, put := Seg("", p, Seg("", p, Tail(""))), Edit(DELETE, 0, ""), Edit(SET, 0, text);
    RewriteTwice(Closed("<w:p/>"), text, text);
    DeletedFirst(p, del, put);
    RewriteTextOnly(Closed("<w:p/>"), text);
    assert PieceText(p) + "" == PieceText(p) == "" + (PieceText(p) + "");
    Located(doc, d, PieceText(p), p, "", 0, text);
    SpliceIs(PieceText(p), "", PieceText(p), "", PieceText(p));
  }

  lemma DeletedFirst(p: Piece, del: Edit, put: Edit)
    requires del == Edit(DELETE, 0, "") && put.op == SET && put.index == 0
    ensures var d := Seg("", p, Seg("", p, Tail("")));
      && Text(EditDoc(d, [del])) == PieceText(p) && Text(EditDoc(d, [del, put])) == PieceText(p)
      && !Settled(d, [del], put)
  {
    hide PieceText, Rewrite;
    Ops();
    var es, fs := [del], [del, put];
    assert es[..0] == [] && fs[..1] == es;
    assert EditsOf(es, 0) == [del] && EditsOf(es, 1) == [];
    assert EditsOf(fs, 0) == [del] + [put] == [del, put] && EditsOf(fs, 1) == [];
    assert CellOf(p, es) == Cell(None, []);
    assert CellOf(p, fs) == Cell(None, []);
    var rest := Seg("", p, Tail(""));
    assert EditFrom(rest, es, 1) == rest && EditFrom(rest, fs, 1) == rest;
    assert "" + (PieceText(p) + "") == PieceText(p);
  }
}
