/** Insertions in front of the first paragraph, one after the other. */
module DocxFront {
  import opened Prelude
  import opened Strings
  import opened Markup
  import opened DocxText
  import opened DocxScan
  import opened DocxParts
  import opened DocxStyle
  import opened DocxProps
  import opened DocxEdits

  predicate Front(e: Edit) {
    e.op == INSERT && e.index < 0
  }

  predicate OnlyInserts(es: seq<Edit>) {
    forall e :: e in es ==> e.op == INSERT
  }

  /** An insertion in front of a tidy paragraph that is not an empty tag, preceded only by insertions there. */
  ghost predicate ReadsFront(d: Doc, done: seq<Edit>, e: Edit)
    requires Target(e) < Size(d)
  {
    Front(e) && PieceAt(d, 0).Full? && Tidy(PieceAt(d, 0)) && PieceOk(PieceAt(d, 0)) && OnlyInserts(EditsOf(done, 0))
  }

  /** The edit works: its paragraph is as long as it was, or it stands in front and finds its properties again. */
  ghost predicate Works(d: Doc, done: seq<Edit>, e: Edit)
    requires Target(e) < Size(d)
  {
    Settled(d, done, e) || ReadsFront(d, done, e)
  }

  /** All edits work; `es` in the order in which they are made. */
  ghost predicate AllWork(d: Doc, es: seq<Edit>) {
    forall m :: 0 <= m < |es| && Target(es[m]) < Size(d) ==> Works(d, es[..m], es[m])
  }

  lemma SteadyWorks(d: Doc, es: seq<Edit>)
    requires Steady(d, es)
    ensures AllWork(d, es)
  {
    hide Settled, ReadsFront;
  }

  lemma {:induction false} FrontsOf(es: seq<Edit>)
    requires forall e :: e in es ==> Front(e)
    ensures EditsOf(es, 0) == es
  {
    if es == [] {
    } else {
      var init, last := es[..|es| - 1], es[|es| - 1];
      assert es == init + [last] && last in es;
      FrontsOf(init);
    }
  }

  lemma FrontIsValid(d: Doc, e: Edit)
    requires Front(e) && Size(d) > 0
    ensures Valid(d, e)
  {
    Ops();
  }

  lemma FrontsWork(d: Doc, es: seq<Edit>)
    requires Size(d) > 0 && PieceAt(d, 0).Full? && Tidy(PieceAt(d, 0)) && PieceOk(PieceAt(d, 0))
    requires forall e :: e in es ==> Front(e)
    ensures AllWork(d, es)
  {
    hide Tidy, PieceOk, Settled;
    forall m | 0 <= m < |es| && Target(es[m]) < Size(d) ensures Works(d, es[..m], es[m]) {
      EditsOfMembers(es[..m], 0);
      assert es[m] in es;
      forall f | f in EditsOf(es[..m], 0) ensures f.op == INSERT {
        var i :| 0 <= i < m && es[..m][i] == f;
        assert es[i] in es;
      }
    }
  }

  // ----------------------------------------------------------------- what stands there

  /** Copies of the paragraph p that stand between its latest copy and itself. */
  ghost predicate Copies(p: Piece, ft: string)
    requires p.Full?
  {
    && TagWhole(ft) && (RPr(p.inner) == "" ==> Bare(ft))
    && (ft == "" || (|ft| >= 4 && ft[3] == 'p'))
  }

  lemma CopyText(p: Piece, text: string)
    requires p.Full? && Tidy(p) && PieceOk(p)
    ensures var x := PieceText(Rewrite(p, text));
      TagWhole(x) && (RPr(p.inner) == "" ==> Bare(x)) && |x| >= 4 && x[3] == 'p'
  {
    hide Bare, NoRun, Solid, PPr, RPr, Runs, StartTag, OneTag, OneLt, Starts, TagWhole;
    var y := NewInner(p.inner, text);
    OpenHead(p.open);
    EndsInTag(p.open, y);
    if RPr(p.inner) == "" {
      NewInnerBare(p.inner, text);
      CloseBare();
      BareConcat(y, CLOSE_P);
      BareTagFront(p.open, y + CLOSE_P);
    }
  }

  lemma OpenHead(open: string)
    requires OneTag(open)
    ensures |open| >= 5 && open[3] == 'p'
  {
    POpenPrefix(open);
  }

  lemma EndsInTag(open: string, y: string)
    ensures TagWhole(open + (y + CLOSE_P))
  {
    EndsWithTagWhole(open + (y + CLOSE_P));
  }

  lemma CloseBare()
    ensures Bare(CLOSE_P) && TagWhole(CLOSE_P) && !Starts(CLOSE_P, RUN_PROPS, 0)
  {
    hide Starts, StartTag;
    EndsWithTagWhole(CLOSE_P);
    forall i | 0 <= i <= |CLOSE_P| ensures !At(CLOSE_P, PROPS_HEAD, i) {
      if At(CLOSE_P, PROPS_HEAD, i) {
        AtBounds(CLOSE_P, PROPS_HEAD, i);
        AtChars(CLOSE_P, PROPS_HEAD, i, 1);
      }
    }
    BareSilent(CLOSE_P);
    NoRunProps(CLOSE_P);
  }

  lemma OneMoreCopy(p: Piece, text: string, ft: string)
    requires p.Full? && Tidy(p) && PieceOk(p) && Copies(p, ft)
    ensures Copies(p, PieceText(Rewrite(p, text)) + ft)
  {
    hide Bare, Tidy, PieceText, Rewrite, RPr, Starts, TagWhole, PieceOk;
    var x := PieceText(Rewrite(p, text));
    CopyText(p, text);
    TagWholeConcat(x, ft);
    if RPr(p.inner) == "" {
      NoRunProps(ft);
      BareConcat(x, ft);
    }
  }

  /**
   * After insertions only: the paragraph itself, or its latest copy, then copies, the paragraph, and what was
   * inserted behind it.
   */
  lemma {:induction false} CopiesStack(p: Piece, es: seq<Edit>) returns (text: string, ft: string, rest: string)
    requires p.Full? && Tidy(p) && PieceOk(p) && OnlyInserts(es)
    ensures var c := CellOf(p, es);
      && c.lead.Some?
      && (c.lead.value == p ||
          (c.lead.value == Rewrite(p, text) && Copies(p, ft) && PiecesText(c.tail) == ft + (PieceText(p) + rest)))
  {
    hide Bare, Tidy, PieceText, Rewrite, Copies, PieceOk;
    Ops();
    if es == [] {
      text, ft, rest := "", "", "";
    } else {
      var init, e := es[..|es| - 1], es[|es| - 1];
      assert es == init + [e];
      var c := CellOf(p, init);
      text, ft, rest := CopiesStack(p, init);
      assert e in es && e.op == INSERT;
      if c.lead.value == p {
        if e.index < 0 { text, ft, rest := FirstCopy(p, c, e.text); }
      } else {
        RewriteTwice(p, text, e.text);
        OneMoreCopy(p, if e.index < 0 then text else e.text, ft);
        TailText(if e.index < 0 then c.lead.value else Rewrite(p, e.text), c.tail, ft, PieceText(p) + rest);
        ft := PieceText(if e.index < 0 then c.lead.value else Rewrite(p, e.text)) + ft;
        if e.index < 0 { text := e.text; }
      }
    }
  }

  lemma TailText(x: Piece, tail: seq<Piece>, a: string, b: string)
    requires PiecesText(tail) == a + b
    ensures PiecesText([x] + tail) == (PieceText(x) + a) + b
  {
    hide PieceText;
    assert ([x] + tail)[1..] == tail;
    Assoc(PieceText(x), a, b);
  }

  lemma FirstCopy(p: Piece, c: Cell<Piece>, again: string) returns (text: string, ft: string, rest: string)
    requires p.Full? && c.lead == Some(p)
    ensures text == again && Copies(p, ft) && PiecesText([p] + c.tail) == ft + (PieceText(p) + rest)
  {
    hide PieceText, Starts, StartTag;
    text, ft, rest := again, "", PiecesText(c.tail);
    assert ([p] + c.tail)[1..] == c.tail;
    assert "" + (PieceText(p) + rest) == PieceText(p) + rest;
    BareNothing();
  }

  lemma BareNothing()
    ensures Bare("") && TagWhole("")
  {
    hide Starts, StartTag;
    forall i: int ensures !Starts("", RUN_PROPS, i) {
      if Starts("", RUN_PROPS, i) { PropsHead("", i); }
    }
  }

  /** The content cut off at the paragraph's old extent has the paragraph's properties. */
  lemma CutCopies(p: Piece, text: string, ft: string, z: string)
    requires p.Full? && Tidy(p) && PieceOk(p) && Copies(p, ft)
    ensures var s := NewInner(p.inner, text) + (CLOSE_P + (ft + (PieceText(p) + z)));
      && |p.inner| <= |s|
      && PPr(s[..|p.inner|]) == PPr(p.inner) && RPr(s[..|p.inner|]) == RPr(p.inner)
  {
    hide Bare, NoRun, Solid, PPr, RPr, Runs, StartTag, OneTag, OneLt, Starts, NewInner, TagWhole;
    var y, n := NewInner(p.inner, text), |p.inner|;
    var w := CLOSE_P + (ft + (p.open + p.inner));
    OpenHead(p.open);
    if RPr(p.inner) == "" {
      NewInnerBare(p.inner, text);
      CloseBare();
      BareTagFront(p.open, p.inner);
      NoRunProps(p.open + p.inner);
      BareConcat(ft, p.open + p.inner);
      NoRunProps(ft + (p.open + p.inner));
      BareConcat(CLOSE_P, ft + (p.open + p.inner));
      NoRunProps(w);
      BareConcat(y, w);
    }
    CutKeeps(p, text, w);
    SameCut(y, CLOSE_P, ft, p.open, p.inner, CLOSE_P, z, n);
  }

  lemma SameCut(y: string, c: string, ft: string, open: string, inner: string, e: string, z: string, n: nat)
    requires n <= |inner|
    ensures var w := c + (ft + (open + inner));
      var s := y + (c + (ft + ((open + (inner + e)) + z)));
      n <= |s| && s[..n] == (y + w)[..n]
  {
    var w := c + (ft + (open + inner));
    var s := y + (c + (ft + ((open + (inner + e)) + z)));
    assert s == (y + w) + (e + z);
  }
}
