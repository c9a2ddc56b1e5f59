/** Reading the edited document gives the edited list. */
module DocxListEdit {
  import opened Prelude
  import opened Strings
  import opened Markup
  import opened DocxText
  import opened DocxScan
  import opened DocxParas
  import opened DocxParts
  import opened DocxStyle
  import opened DocxProps
  import opened DocxEdits
  import opened DocxFront
  import opened DocxApply
  import opened DocxExtract

  function Inserted(p: Paragraph, text: string): Paragraph {
    Paragraph(p.style, text, p.inTable, false)
  }

  /** What one edit means for a reader of the paragraph it works at. */
  function ReadApplied(c: Cell<Paragraph>, e: Edit): Cell<Paragraph> {
    if c.lead.None? then c
    else
      var p := c.lead.value;
      if e.op == SET then c.(lead := Some(p.(text := e.text)))
      else if e.op == INSERT then
        if e.index < 0 then Cell(Some(Inserted(p, e.text)), [p] + c.tail)
        else c.(tail := [Inserted(p, e.text)] + c.tail)
      else if e.op == DELETE then c.(lead := None)
      else c
  }

  function ReadCell(p: Paragraph, es: seq<Edit>): Cell<Paragraph> {
    if es == [] then Cell(Some(p), []) else ReadApplied(ReadCell(p, es[..|es| - 1]), es[|es| - 1])
  }

  function Row<T>(c: Cell<T>): seq<T> {
    (if c.lead.Some? then [c.lead.value] else []) + c.tail
  }

  /** The edited list, for edits in the order in which they are made; paragraph i of ps is addressed as k + i. */
  function ListEdit(ps: seq<Paragraph>, es: seq<Edit>, k: nat): seq<Paragraph> {
    if ps == [] then [] else Row(ReadCell(ps[0], EditsOf(es, k))) + ListEdit(ps[1..], es, k + 1)
  }

  // -------------------------------------------------------------- tame documents

  /** Kept properties that hold neither text nor anything a reader would find elsewhere. */
  ghost predicate Plain(part: string) {
    && TokenFree(part)
    && forall m :: m in MARKERS ==> !Contains(part, m)
  }

  /** A paragraph that can be rewritten or cloned without a reader noticing more than its text. */
  ghost predicate Regular(p: Piece) {
    && TrimsClean(p)
    && match p
       case Closed(tag) => OneLt(tag)
       case Full(open, inner) =>
         && OneLt(open)
         && !Contains(inner, TABLE) && !Contains(inner, TABLE_END)
         && Plain(PPr(inner)) && Plain(RPr(inner))
         && Quoted(PPr(inner))
         && !Contains(inner[|PPr(inner)|..], STYLE) && !Contains(RPr(inner), STYLE)
  }

  /** No piece that an edit works on carries text in its properties or table tags in its content. */
  ghost predicate TameEdit(lead: Option<Piece>, e: Edit) {
    lead.Some? ==> if e.op == DELETE then Depth(PieceText(lead.value)) == 0 else Regular(lead.value)
  }

  ghost predicate PieceTame(p: Piece, es: seq<Edit>) {
    es == [] || (PieceTame(p, es[..|es| - 1]) && TameEdit(CellOf(p, es[..|es| - 1]).lead, es[|es| - 1]))
  }

  ghost predicate EditsTame(d: Doc, es: seq<Edit>) {
    forall k :: 0 <= k < Size(d) ==> PieceTame(PieceAt(d, k), EditsOf(es, k))
  }

  /** When only insertions after a paragraph precede other edits of it, the unedited paragraphs decide. */
  lemma UndisturbedTame(d: Doc, es: seq<Edit>)
    requires Undisturbed(es)
    requires forall e :: e in es && Target(e) < Size(d) ==> TameEdit(Some(PieceAt(d, Target(e))), e)
    ensures EditsTame(d, es)
  {
    hide PieceTame, TameEdit;
    forall k | 0 <= k < Size(d) ensures PieceTame(PieceAt(d, k), EditsOf(es, k)) {
      EditsOfMembers(es, k);
      InsertionsFirst(es, k);
      assert forall i :: 0 <= i < |EditsOf(es, k)| - 1 ==> InsertsAfter(EditsOf(es, k)[i]);
      FirstTame(PieceAt(d, k), EditsOf(es, k));
    }
  }

  lemma {:induction false} FirstTame(p: Piece, es: seq<Edit>)
    requires forall i :: 0 <= i < |es| - 1 ==> InsertsAfter(es[i])
    requires forall e :: e in es ==> TameEdit(Some(p), e)
    ensures PieceTame(p, es)
  {
    hide TameEdit;
    if es == [] {
    } else {
      var init := es[..|es| - 1];
      assert forall e :: e in init ==> e in es;
      FirstTame(p, init);
      InsertionsStack(p, init);
    }
  }

  // ------------------------------------------------------ a rewritten paragraph

  lemma RunsPlain(text: string)
    ensures !HasNonText(Runs(text, "")) && Style(Runs(text, "")) == None && TextOf(Runs(text, "")) == text
  {
    hide Contains, Foreign, Runs, Style, TextOf;
    MarkersForeign();
    StructureForeign();
    forall m | m in MARKERS ensures !Contains(Runs(text, ""), m) {
      EmptySilent(m);
      SilentRuns(text, "", m);
    }
    EmptySilent(STYLE);
    SilentRuns(text, "", STYLE);
    NoStyle(Runs(text, ""));
    NothingStarts();
    TextRoundTrip(text, "");
  }

  lemma NothingStarts()
    ensures TagWhole("") && TokenFree("")
  {
  }

  lemma NewInnerMarkers(inner: string, text: string)
    requires Plain(PPr(inner)) && Plain(RPr(inner))
    ensures !HasNonText(NewInner(inner, text))
  {
    hide Contains, Foreign, PPr, RPr, NewInner, TokenFree;
    MarkersForeign();
    forall m | m in MARKERS ensures !Contains(NewInner(inner, text), m) {
      NewInnerSilent(inner, text, m);
    }
  }

  lemma NewInnerStyle(inner: string, text: string)
    requires Quoted(PPr(inner)) && !Contains(inner[|PPr(inner)|..], STYLE) && !Contains(RPr(inner), STYLE)
    ensures Style(NewInner(inner, text)) == Style(inner)
  {
    hide Contains, Foreign, PPr, RPr, Style, Quoted, TagWhole, Runs;
    StructureForeign();
    SilentRuns(text, RPr(inner), STYLE);
    StyleKept(PPr(inner), Runs(text, RPr(inner)));
    StyleKept(PPr(inner), inner[|PPr(inner)|..]);
    assert inner == PPr(inner) + inner[|PPr(inner)|..];
  }

  lemma NewInnerText(inner: string, text: string)
    requires TokenFree(PPr(inner)) && TokenFree(RPr(inner))
    ensures TextOf(NewInner(inner, text)) == text
  {
    hide PPr, RPr, TextOf, Runs, TagWhole, TokenFree;
    ReadRuns(PPr(inner), text, RPr(inner));
  }

  /** A rewritten or cloned paragraph reads as the old one with another text. */
  lemma RewriteReads(p: Piece, text: string, inTable: bool)
    requires PieceOk(p) && Regular(p)
    ensures Described(Rewrite(p, text), inTable) == Inserted(Described(p, inTable), text)
  {
    hide TokenFree, Contains, PPr, RPr, NewInner, Runs, Style, TextOf, HasNonText, Quoted, PieceOk, OneLt;
    match p
    case Closed(tag) => RunsPlain(text);
    case Full(open, inner) =>
      NewInnerMarkers(inner, text);
      NewInnerStyle(inner, text);
      NewInnerText(inner, text);
  }

  // ----------------------------------------------------- no tables in a rewrite

  lemma SilentDepth(x: string)
    requires !Contains(x, TABLE) && !Contains(x, TABLE_END)
    ensures Depth(x) == 0
  {
    CountSkip(x, TABLE, 0, |x|, |x|);
    CountSkip(x, TABLE_END, 0, |x|, |x|);
  }

  lemma TagSilent(t: string, p: string)
    requires OneTag(t) && OneLt(t) && (p == TABLE || p == TABLE_END || p == CLOSE_P)
    ensures !(p == CLOSE_P) ==> Silent(t, p)
    ensures TagWhole(t)
  {
    EndsWithTagWhole(t);
    POpenPrefix(t);
    forall i | 0 <= i <= |t| && p != CLOSE_P ensures !At(t, p, i) {
      if At(t, p, i) {
        AtChars(t, p, i, 0);
        AtChars(t, p, i, 1);
        AtChars(t, p, i, 3);
      }
    }
  }

  lemma ClosingTagDepth()
    ensures Depth(CLOSE_P) == 0
  {
    forall i | 0 <= i <= |CLOSE_P| ensures !At(CLOSE_P, TABLE, i) && !At(CLOSE_P, TABLE_END, i) {
      if At(CLOSE_P, TABLE, i) { AtBounds(CLOSE_P, TABLE, i); }
      if At(CLOSE_P, TABLE_END, i) { AtBounds(CLOSE_P, TABLE_END, i); }
    }
    SilentDepth(CLOSE_P);
  }

  lemma FullDepth(open: string, inner: string)
    requires OneTag(open) && OneLt(open)
    requires !Contains(inner, TABLE) && !Contains(inner, TABLE_END)
    ensures Depth(PieceText(Full(open, inner))) == 0
  {
    hide Contains, OneTag, OneLt, TagWhole, Depth;
    ClosingTagDepth();
    TagSilent(open, TABLE);
    TagSilent(open, TABLE_END);
    SilentDepth(open);
    SilentDepth(inner);
    DepthConcat(inner, CLOSE_P);
    DepthConcat(open, inner + CLOSE_P);
  }

  lemma RegularDepth(p: Piece)
    requires PieceOk(p) && Regular(p)
    ensures Depth(PieceText(p)) == 0
  {
    hide Contains, OneTag, OneLt, TagWhole, Depth, Plain, Quoted;
    match p
    case Closed(tag) =>
      TagSilent(tag, TABLE);
      TagSilent(tag, TABLE_END);
      SilentDepth(tag);
    case Full(open, inner) => FullDepth(open, inner);
  }

  lemma RunsDepth(text: string)
    ensures !Contains(Runs(text, ""), TABLE) && !Contains(Runs(text, ""), TABLE_END)
  {
    hide Contains, Foreign, Runs;
    TableForeign();
    EmptySilent(TABLE);
    EmptySilent(TABLE_END);
    SilentRuns(text, "", TABLE);
    SilentRuns(text, "", TABLE_END);
  }

  lemma NewInnerDepth(inner: string, text: string)
    requires !Contains(inner, TABLE) && !Contains(inner, TABLE_END)
    ensures !Contains(NewInner(inner, text), TABLE) && !Contains(NewInner(inner, text), TABLE_END)
  {
    hide Contains, Foreign, Runs, PPr, RPr, NewInner;
    TableForeign();
    KeptSilent(inner, TABLE);
    KeptSilent(inner, TABLE_END);
    NewInnerSilent(inner, text, TABLE);
    NewInnerSilent(inner, text, TABLE_END);
  }

  lemma TrimmedOneLt(tag: string)
    requires OneLt(tag)
    ensures OneLt(TrimTag(tag) + ">")
  {
  }

  lemma RewriteDepth(p: Piece, text: string)
    requires PieceOk(p) && Regular(p)
    ensures Depth(PieceText(Rewrite(p, text))) == 0
  {
    hide Contains, OneTag, OneLt, TagWhole, Depth, Plain, Quoted, Runs, NewInner, PieceText, TrimTag;
    RewriteOk(p, text);
    match p
    case Closed(tag) =>
      RunsDepth(text);
      TrimmedOneLt(tag);
      FullDepth(TrimTag(tag) + ">", Runs(text, ""));
    case Full(open, inner) =>
      NewInnerDepth(inner, text);
      FullDepth(open, NewInner(inner, text));
  }

  /** A regular and tidy paragraph stays regular when it is rewritten. */
  lemma RegularAgain(p: Piece, text: string)
    requires p.Full? && Regular(p) && Tidy(p)
    ensures Regular(Rewrite(p, text))
  {
    hide TokenFree, Contains, PPr, RPr, Runs, Foreign, Tidy, OneLt, Quoted;
    var x := NewInner(p.inner, text);
    WrittenKeeps(p, text);
    NewInnerDepth(p.inner, text);
    StructureForeign();
    SilentRuns(text, RPr(p.inner), STYLE);
    assert x[|PPr(p.inner)|..] == Runs(text, RPr(p.inner));
  }

  /** Insertions in front of a regular and tidy paragraph all work on regular pieces. */
  lemma {:induction false} FrontsTame(p: Piece, es: seq<Edit>) returns (text: string)
    requires p.Full? && Regular(p) && Tidy(p) && forall e :: e in es ==> Front(e)
    ensures PieceTame(p, es)
    ensures var lead := CellOf(p, es).lead; lead == Some(p) || lead == Some(Rewrite(p, text))
  {
    hide Regular, Tidy, Rewrite, Depth;
    Ops();
    if es == [] {
      text := "";
    } else {
      var init, e := es[..|es| - 1], es[|es| - 1];
      assert es == init + [e] && e in es;
      text := FrontsTame(p, init);
      RegularAgain(p, text);
      RewriteTwice(p, text, e.text);
      text := e.text;
    }
  }

  // ------------------------------------------------- the edited document is scanned

  lemma ShapedPrepend(x: string, d: Doc)
    requires TagWhole(x) && NoPOpen(x) && Shaped(d) && GapsWhole(d)
    ensures Shaped(Prepend(x, d)) && GapsWhole(Prepend(x, d))
  {
    hide TagWhole, FirstPara, PieceOk, NoPOpen;
    match d
    case Tail(gap) => FirstShift(x, gap);
    case Seg(gap, piece, rest) =>
      NoPOpenConcat(x, gap);
      TagWholeConcat(x, gap);
  }

  lemma NoPOpenConcat(x: string, z: string)
    requires TagWhole(x) && NoPOpen(x) && NoPOpen(z)
    ensures NoPOpen(x + z)
  {
    hide TagWhole, POpen;
    forall i: int ensures !POpen(x + z, i) {
      POpenSplit(x, z, i);
    }
  }

  lemma EmptyGap()
    ensures TagWhole("") && NoPOpen("")
  {
    forall i: int ensures !POpen("", i) {
      if POpen("", i) { POpenChar("", i); }
    }
  }

  lemma {:induction false} ShapedInsertions(ps: seq<Piece>, rest: Doc)
    requires (forall p :: p in ps ==> PieceOk(p)) && Shaped(rest) && GapsWhole(rest)
    ensures Shaped(Insertions(ps, rest)) && GapsWhole(Insertions(ps, rest))
  {
    hide TagWhole, FirstPara, PieceOk, NoPOpen;
    if ps == [] {
    } else {
      EmptyGap();
      ShapedInsertions(ps[1..], rest);
    }
  }

  lemma ShapedCell(gap: string, c: Cell<Piece>, rest: Doc)
    requires NoPOpen(gap) && TagWhole(gap) && (forall p :: p in Row(c) ==> PieceOk(p)) && Shaped(rest) && GapsWhole(rest)
    ensures Shaped(CellDoc(gap, c, rest)) && GapsWhole(CellDoc(gap, c, rest))
  {
    hide TagWhole, FirstPara, PieceOk, NoPOpen;
    assert forall p :: p in c.tail ==> p in Row(c);
    ShapedInsertions(c.tail, rest);
    match c.lead
    case Some(p) => assert p == Row(c)[0];
    case None => ShapedPrepend(gap, Insertions(c.tail, rest));
  }

  // ------------------------------------------------------------- one edited paragraph

  function ReadAll(ps: seq<Piece>, inTable: bool): seq<Paragraph> {
    if ps == [] then [] else [Described(ps[0], inTable)] + ReadAll(ps[1..], inTable)
  }

  function Read(c: Cell<Piece>, inTable: bool): Cell<Paragraph> {
    Cell(if c.lead.Some? then Some(Described(c.lead.value, inTable)) else None, ReadAll(c.tail, inTable))
  }

  /** The pieces of a cell scan as paragraphs and open no table. */
  ghost predicate CellOk(c: Cell<Piece>) {
    forall p :: p in Row(c) ==> PieceOk(p) && Depth(PieceText(p)) == 0
  }

  lemma RowApplied(c: Cell<Piece>, e: Edit)
    requires c.lead.Some?
    ensures forall p :: p in Row(Applied(c, e)) ==> p in Row(c) || (e.op != DELETE && p == Rewrite(c.lead.value, e.text))
    ensures c.lead.value in Row(c)
  {
    hide Rewrite;
    Ops();
    assert Row(c)[0] == c.lead.value;
    var x := Applied(c, e);
    forall p | p in Row(x) ensures p in Row(c) || (e.op != DELETE && p == Rewrite(c.lead.value, e.text)) {
      assert p in c.tail ==> p in Row(c);
    }
  }

  /** One edit of a piece is read as that edit of the paragraph. */
  lemma AppliedReads(c: Cell<Piece>, e: Edit, inTable: bool)
    requires c.lead.Some? && PieceOk(c.lead.value) && TameEdit(c.lead, e) && Takes(c.lead.value, e)
    ensures Read(Applied(c, e), inTable) == ReadApplied(Read(c, inTable), e)
  {
    hide Regular, Depth, PieceOk, Described, Rewrite, HasNonText, PieceText;
    Ops();
    var p := c.lead.value;
    if e.op != DELETE {
      RewriteReads(p, e.text, inTable);
      if e.op == SET { TextOnly(p, e.text, inTable); }
      var x := if e.index < 0 then p else Rewrite(p, e.text);
      assert ([x] + c.tail)[1..] == c.tail;
    }
  }

  /** A tame edit of a piece leaves pieces that scan as paragraphs and open no table. */
  lemma AppliedOk(c: Cell<Piece>, e: Edit)
    requires c.lead.Some? && TameEdit(c.lead, e)
    requires forall p :: p in Row(c) ==> PieceOk(p)
    requires forall p :: p in c.tail ==> Depth(PieceText(p)) == 0
    ensures CellOk(Applied(c, e)) && Depth(PieceText(c.lead.value)) == 0
  {
    hide Regular, Depth, PieceOk, Rewrite, PieceText, Applied;
    RowApplied(c, e);
    var p := c.lead.value;
    if e.op == DELETE {
    } else {
      RegularOk(p, e.text);
    }
    assert forall q :: q in Row(c) ==> q == p || q in c.tail;
  }

  lemma RegularOk(p: Piece, text: string)
    requires PieceOk(p) && Regular(p)
    ensures PieceOk(Rewrite(p, text)) && Depth(PieceText(Rewrite(p, text))) == 0 && Depth(PieceText(p)) == 0
  {
    hide Depth, PieceOk, PieceText, Rewrite, Plain, Quoted, OneLt, Contains;
    RegularDepth(p);
    RewriteDepth(p, text);
    RewriteOk(p, text);
  }

  lemma {:induction false} CellReads(p: Piece, es: seq<Edit>, inTable: bool)
    requires PieceOk(p) && PieceTame(p, es) && AllTaken(p, es)
    ensures Read(CellOf(p, es), inTable) == ReadCell(Described(p, inTable), es)
    ensures forall q :: q in Row(CellOf(p, es)) ==> PieceOk(q)
    ensures forall q :: q in CellOf(p, es).tail ==> Depth(PieceText(q)) == 0
    ensures es != [] ==> CellOk(CellOf(p, es)) && Depth(PieceText(p)) == 0
  {
    hide Regular, Depth, PieceOk, Rewrite, PieceText, Applied, Read, ReadApplied, Described, TameEdit, Takes;
    if es == [] {
      FirstReads(p, inTable);
    } else {
      var init, last := es[..|es| - 1], es[|es| - 1];
      CellReads(p, init, inTable);
      var c := CellOf(p, init);
      if c.lead.Some? {
        assert Row(c)[0] == c.lead.value;
        AppliedReads(c, last, inTable);
        AppliedOk(c, last);
      } else {
        NothingApplied(c, last, inTable);
        assert init != [];
      }
    }
  }

  lemma FirstReads(p: Piece, inTable: bool)
    ensures Read(Cell(Some(p), []), inTable) == Cell(Some(Described(p, inTable)), [])
  {
  }

  lemma NothingApplied(c: Cell<Piece>, e: Edit, inTable: bool)
    requires c.lead.None?
    ensures Applied(c, e) == c && ReadApplied(Read(c, inTable), e) == Read(c, inTable)
  {
  }

  /** No text is set in a piece with other content. */
  ghost predicate AllTaken(p: Piece, es: seq<Edit>) {
    es == [] || (AllTaken(p, es[..|es| - 1]) &&
      (CellOf(p, es[..|es| - 1]).lead.Some? ==> Takes(CellOf(p, es[..|es| - 1]).lead.value, es[|es| - 1])))
  }

  lemma {:induction false} ValidTaken(p: Piece, es: seq<Edit>)
    requires Descending(es) && forall e :: e in es ==> Takes(p, e) && (e.op == SET ==> e.index >= 0)
    ensures AllTaken(p, es)
  {
    hide HasNonText, CellOf;
    if es == [] {
    } else {
      var init, last := es[..|es| - 1], es[|es| - 1];
      assert es == init + [last];
      ValidTaken(p, init);
      if last.op == SET {
        forall e | e in init ensures e.index >= 0 {
          var i :| 0 <= i < |init| && init[i] == e;
          assert es[i] == e;
        }
        NonTextKept(p, init);
      }
    }
  }

  lemma {:induction false} EditsOfDescending(es: seq<Edit>, k: nat)
    requires Descending(es)
    ensures Descending(EditsOf(es, k))
  {
    if es == [] {
    } else {
      var init, last := es[..|es| - 1], es[|es| - 1];
      EditsOfDescending(init, k);
      EditsOfMembers(init, k);
      forall e | e in EditsOf(init, k) ensures e.index >= last.index {
        var i :| 0 <= i < |init| && init[i] == e;
        assert es[i] == e;
      }
    }
  }

  // ----------------------------------------------------------- the edited listing

  lemma ListingPrepend(x: string, d: Doc, depth: int)
    requires TagWhole(x)
    ensures Listing(Prepend(x, d), depth) == Listing(d, depth + Depth(x))
  {
    hide TagWhole, Depth, Described;
    match d
    case Tail(_) =>
    case Seg(gap, piece, rest) => DepthConcat(x, gap);
  }

  lemma {:induction false} ListingInsertions(ps: seq<Piece>, rest: Doc, depth: int)
    requires forall p :: p in ps ==> Depth(PieceText(p)) == 0
    ensures Listing(Insertions(ps, rest), depth) == ReadAll(ps, depth > 0) + Listing(rest, depth)
  {
    hide Depth, Described, PieceText;
    if ps == [] {
    } else {
      EmptyDepth();
      ListingInsertions(ps[1..], rest, depth);
    }
  }

  lemma ListingCell(gap: string, c: Cell<Piece>, rest: Doc, depth: int)
    requires TagWhole(gap) && CellOk(c)
    ensures Listing(CellDoc(gap, c, rest), depth)
      == Row(Read(c, depth + Depth(gap) > 0)) + Listing(rest, depth + Depth(gap))
  {
    hide TagWhole, Depth, Described, PieceOk, PieceText, Insertions, ReadAll, Listing, Prepend;
    var inside := depth + Depth(gap);
    assert forall p :: p in c.tail ==> p in Row(c);
    ListingInsertions(c.tail, rest, inside);
    match c.lead
    case Some(p) =>
      assert Row(c)[0] == p;
      ListingHead(gap, p, Insertions(c.tail, rest), depth);
      ConsAssoc(Described(p, inside > 0), ReadAll(c.tail, inside > 0), Listing(rest, inside));
    case None =>
      ListingPrepend(gap, Insertions(c.tail, rest), depth);
      assert [] + ReadAll(c.tail, inside > 0) == ReadAll(c.tail, inside > 0);
  }

  lemma ListingHead(gap: string, p: Piece, rest: Doc, depth: int)
    requires Depth(PieceText(p)) == 0
    ensures Listing(Seg(gap, p, rest), depth) == [Described(p, depth + Depth(gap) > 0)] + Listing(rest, depth + Depth(gap))
  {
    hide Depth, Described, PieceText;
  }

  lemma ConsAssoc(x: Paragraph, a: seq<Paragraph>, z: seq<Paragraph>)
    ensures [x] + (a + z) == ([x] + a) + z
  {
  }

  lemma TextOnly(p: Piece, text: string, inTable: bool)
    requires p.Full? ==> !HasNonText(p.inner)
    ensures Inserted(Described(p, inTable), text) == Described(p, inTable).(text := text)
  {
  }

  lemma EmptyDepth()
    ensures Depth("") == 0
  {
  }

  /** The pieces of d are fit for their edits; paragraph i of d is addressed as k + i. */
  ghost predicate CellsFit(d: Doc, es: seq<Edit>, k: nat) {
    match d
    case Tail(_) => true
    case Seg(_, piece, rest) => PieceTame(piece, EditsOf(es, k)) && AllTaken(piece, EditsOf(es, k)) && CellsFit(rest, es, k + 1)
  }

  /** The head of the document: what it becomes is scanned as it stands and read as the edited paragraph. */
  lemma HeadEdit(gap: string, p: Piece, es: seq<Edit>, rest: Doc, depth: int)
    requires TagWhole(gap) && NoPOpen(gap) && PieceOk(p) && PieceTame(p, es) && AllTaken(p, es) && Shaped(rest) && GapsWhole(rest)
    ensures var x := CellDoc(gap, CellOf(p, es), rest);
      && Shaped(x) && GapsWhole(x)
      && Listing(x, depth) == Row(ReadCell(Described(p, depth + Depth(gap) > 0), es)) + Listing(rest, depth + Depth(gap) + Depth(PieceText(p)))
  {
    hide TagWhole, FirstPara, PieceOk, NoPOpen, Depth, Described, PieceText, PieceTame, AllTaken, Shaped, GapsWhole, Listing, CellDoc, Applied;
    var inTable := depth + Depth(gap) > 0;
    CellReads(p, es, inTable);
    ShapedCell(gap, CellOf(p, es), rest);
    if es == [] {
      UneditedHead(gap, p, rest, depth);
    } else {
      ListingCell(gap, CellOf(p, es), rest, depth);
    }
  }

  lemma UneditedHead(gap: string, p: Piece, rest: Doc, depth: int)
    ensures Listing(CellDoc(gap, CellOf(p, []), rest), depth)
      == Row(ReadCell(Described(p, depth + Depth(gap) > 0), [])) + Listing(rest, depth + Depth(gap) + Depth(PieceText(p)))
  {
    hide Depth, Described, PieceText;
  }

  lemma {:induction false} ListingEdit(d: Doc, es: seq<Edit>, k: nat, depth: int)
    requires Shaped(d) && GapsWhole(d) && CellsFit(d, es, k)
    ensures Shaped(EditFrom(d, es, k)) && GapsWhole(EditFrom(d, es, k))
    ensures Listing(EditFrom(d, es, k), depth) == ListEdit(Listing(d, depth), es, k)
  {
    hide TagWhole, FirstPara, PieceOk, NoPOpen, CellDoc, CellOf, EditsOf, Row, ReadCell, Depth, Described, PieceText, PieceTame, AllTaken;
    match d
    case Tail(_) =>
    case Seg(gap, piece, rest) =>
      var inside := depth + Depth(gap) + Depth(PieceText(piece));
      ListingEdit(rest, es, k + 1, inside);
      assert Listing(d, depth)[1..] == Listing(rest, inside);
      HeadEdit(gap, piece, EditsOf(es, k), EditFrom(rest, es, k + 1), depth);
  }

  lemma {:induction false} CellsFitFrom(d: Doc, es: seq<Edit>, k: nat, whole: Doc)
    requires k + Size(d) == Size(whole) && forall i :: 0 <= i < Size(d) ==> PieceAt(d, i) == PieceAt(whole, k + i)
    requires Descending(es) && forall e :: e in es ==> Valid(whole, e)
    requires EditsTame(whole, es)
    ensures CellsFit(d, es, k)
  {
    hide PieceTame, AllTaken, HasNonText, Descending, EditsOf, Takes;
    match d
    case Tail(_) =>
    case Seg(gap, piece, rest) =>
      assert PieceAt(d, 0) == piece;
      forall i | 0 <= i < Size(rest) ensures PieceAt(rest, i) == PieceAt(whole, k + 1 + i) {
        assert PieceAt(d, i + 1) == PieceAt(rest, i);
      }
      CellsFitFrom(rest, es, k + 1, whole);
      TakenAt(whole, es, k);
  }

  lemma TakenAt(d: Doc, es: seq<Edit>, k: nat)
    requires k < Size(d) && Descending(es) && forall e :: e in es ==> Valid(d, e)
    ensures AllTaken(PieceAt(d, k), EditsOf(es, k))
  {
    hide AllTaken, HasNonText, Descending, EditsOf, Size, PieceAt;
    EditsOfDescending(es, k);
    EditsOfMembers(es, k);
    ValidTaken(PieceAt(d, k), EditsOf(es, k));
  }

  /**
   * For edits that work, in a document whose gaps hold whole tags and whose edited paragraphs are
   * regular: scanning the patched text finds exactly the edited paragraphs, and what is read from them is the
   * edited list.
   */
  lemma ExtractAfterApply(doc: string, edits: seq<Edit>)
    requires AllWork(Segment(doc), Sorted(edits)) && forall e :: e in edits ==> Valid(Segment(doc), e)
    requires GapsWhole(Segment(doc)) && EditsTame(Segment(doc), Sorted(edits))
    ensures Patched(doc, edits).Success?
    ensures
      var d, out := Segment(doc), Patched(doc, edits).value;
      && Segment(out) == EditDoc(d, Sorted(edits))
      && Listing(Segment(out), 0) == ListEdit(Listing(d, 0), Sorted(edits), 0)
  {
    hide AllWork, Valid, GapsWhole, EditsTame, Segment, Text, Listing, Shaped, ListEdit, Sorted, Patched, CellsFit, Size, PieceAt, EditFrom, Descending;
    var d, es := Segment(doc), Sorted(edits);
    SortedFacts(edits);
    AppliesEdits(doc, edits);
    SegmentShaped(doc);
    CellsFitFrom(d, es, 0, d);
    ListingEdit(d, es, 0, 0);
    SegmentOfText(EditDoc(d, es));
  }

  lemma NoTagNoParagraph(s: string)
    requires forall i :: 0 <= i < |s| ==> s[i] != '<'
    ensures Segment(s) == Tail(s) && NoPOpen(s)
  {
    forall i: int ensures !POpen(s, i) {
      if POpen(s, i) { POpenChar(s, i); }
    }
  }

  const CUT := "<<w:p/>w:p/>"

  lemma CutOpens()
    ensures POpen(CUT, 1) && !POpen(CUT, 0)
  {
    assert CUT[1..6] == "<w:p/";
    assert CUT[1] == '<';
    if At(CUT, "<w:p ", 0) { AtChars(CUT, "<w:p ", 0, 1); }
    else if At(CUT, "<w:p>", 0) { AtChars(CUT, "<w:p>", 0, 1); }
    else if At(CUT, "<w:p/", 0) { AtChars(CUT, "<w:p/", 0, 1); }
  }

  lemma CutCloses()
    ensures IndexOf(CUT, ">", 1) == Some(6)
  {
    hide At;
    forall j: nat | j < |CUT| ensures At(CUT, ">", j) <==> CUT[j] == '>' { AtOne(CUT, '>', j); }
    IndexOfIs(CUT, ">", 1, 6);
  }

  lemma CutScans()
    ensures Segment(CUT) == Seg("<", Closed("<w:p/>"), Tail("w:p/>"))
    ensures Segment("<w:p/>") == Seg("", Closed("<w:p/>"), Tail(""))
  {
    hide IndexOf, FindP, POpen;
    CutOpens();
    FindPIs(CUT, 0, 1);
    CutCloses();
    assert CUT[1..7] == "<w:p/>" && CUT[7..] == "w:p/>" && CUT[..1] == "<";
    NoTagNoParagraph("w:p/>");
    NoTagNoParagraph("");
    EmptyTagOk();
    SegmentPiece(Closed("<w:p/>"), "");
    assert "<w:p/>" + "" == "<w:p/>";
  }

  lemma EmptyTagOk()
    ensures PieceOk(Closed("<w:p/>"))
  {
    var t := "<w:p/>";
    assert t[0..5] == "<w:p/";
  }

  lemma OneTarget(e: Edit)
    ensures Sorted([e]) == [e] && Undisturbed([e])
  {
    assert Exchanged([e], 0, 1) == [e];
    assert SortedFrom([e], 1) == [e];
  }

  /** Deleting a paragraph behind a tag that is cut off can make a paragraph that was not there. */
  lemma CutTag()
    ensures var doc, e := CUT, Edit(DELETE, 0, "");
      && AllWork(Segment(doc), Sorted([e])) && Valid(Segment(doc), e) && EditsTame(Segment(doc), Sorted([e]))
      && Patched(doc, [e]) == Success("<w:p/>")
      && |Listing(Segment("<w:p/>"), 0)| == 1 && |ListEdit(Listing(Segment(doc), 0), Sorted([e]), 0)| == 0
  {
    hide Segment, IndexOf, FindP, Patched, Sorted, Steady, AllWork, EditsTame, TameEdit, Depth, Described;
    var doc, e := CUT, Edit(DELETE, 0, "");
    var d := Seg("<", Closed("<w:p/>"), Tail("w:p/>"));
    CutScans();
    Ops();
    OneTarget(e);
    EmptyTagDepth();
    assert TameEdit(Some(PieceAt(d, 0)), e) by { DeletionTame(Closed("<w:p/>"), e); }
    UndisturbedSteady(d, [e]);
    SteadyWorks(d, [e]);
    UndisturbedTame(d, [e]);
    AppliesEdits(doc, [e]);
    OneDeleted(d, e);
  }

  lemma DeletionTame(p: Piece, e: Edit)
    requires e.op == DELETE && Depth(PieceText(p)) == 0
    ensures TameEdit(Some(p), e)
  {
    hide Depth;
  }

  lemma EmptyTagDepth()
    ensures Depth(PieceText(Closed("<w:p/>"))) == 0
  {
    var t := "<w:p/>";
    forall i | 0 <= i <= |t| ensures !At(t, TABLE, i) && !At(t, TABLE_END, i) {
      if At(t, TABLE, i) { AtBounds(t, TABLE, i); }
      if At(t, TABLE_END, i) { AtBounds(t, TABLE_END, i); }
    }
    SilentDepth(t);
  }

  lemma OneDeleted(d: Doc, e: Edit)
    requires d == Seg("<", Closed("<w:p/>"), Tail("w:p/>")) && e == Edit(DELETE, 0, "")
    ensures Text(EditDoc(d, [e])) == "<w:p/>" && |Listing(d, 0)| == 1 && |ListEdit(Listing(d, 0), [e], 0)| == 0
  {
    hide Depth, Described;
    Ops();
    OneEdit(d.piece, Listing(d, 0)[0], e);
    var rest := Tail("w:p/>");
    assert EditFrom(rest, [e], 1) == rest && Insertions([], rest) == rest;
    assert EditDoc(d, [e]) == CellDoc("<", Cell(None, []), rest) == Prepend("<", rest);
    assert "<" + "w:p/>" == "<w:p/>";
    var p := Listing(d, 0)[0];
    assert Listing(d, 0) == [p] && Listing(d, 0)[1..] == [];
    assert ListEdit([p], [e], 0) == Row(ReadCell(p, [e])) + ListEdit([], [e], 1);
  }

  lemma OneEdit(p: Piece, q: Paragraph, e: Edit)
    requires e == Edit(DELETE, 0, "")
    ensures EditsOf([e], 0) == [e] && CellOf(p, [e]) == Cell(None, []) && ReadCell(q, [e]) == Cell(None, [])
  {
    Ops();
    var es := [e];
    assert es[..0] == [];
    assert EditsOf(es, 0) == [] + [e];
    assert CellOf(p, es) == Applied(Cell(Some(p), []), e);
    assert ReadCell(q, es) == ReadApplied(Cell(Some(q), []), e);
  }

  /** The paragraphs that n insertions in front of paragraph p put there, the last one made first. */
  function FrontRow(p: Paragraph, es: seq<Edit>): seq<Paragraph> {
    if es == [] then [p] else [Inserted(p, es[|es| - 1].text)] + FrontRow(p, es[..|es| - 1])
  }

  lemma {:induction false} FrontRowIs(p: Paragraph, es: seq<Edit>)
    requires forall e :: e in es ==> Front(e)
    ensures Row(ReadCell(p, es)) == FrontRow(p, es)
    ensures ReadCell(p, es).lead.Some? && Inserted(ReadCell(p, es).lead.value, "") == Inserted(p, "")
  {
    Ops();
    if es == [] {
    } else {
      var init, e := es[..|es| - 1], es[|es| - 1];
      assert es == init + [e] && e in es;
      FrontRowIs(p, init);
      var c := ReadCell(p, init);
      assert [Inserted(c.lead.value, e.text)] + ([c.lead.value] + c.tail) == Row(ReadApplied(c, e));
    }
  }

  lemma {:induction false} NothingBehind(ps: seq<Paragraph>, es: seq<Edit>, k: nat)
    requires k > 0 && forall e :: e in es ==> Front(e)
    ensures ListEdit(ps, es, k) == ps
  {
    hide EditsOf;
    if ps == [] {
    } else {
      NothingBehind(ps[1..], es, k + 1);
      NoneOf(es, k);
      assert ps == [ps[0]] + ps[1..];
    }
  }

  /** Any number of insertions in front of a paragraph that is not an empty tag are read back in front of the list. */
  lemma FrontsExtract(doc: string, es: seq<Edit>)
    requires Size(Segment(doc)) > 0 && forall e :: e in es ==> Front(e)
    requires var p := PieceAt(Segment(doc), 0); p.Full? && Regular(p) && Tidy(p)
    requires GapsWhole(Segment(doc))
    ensures Patched(doc, es).Success? && Listing(Segment(doc), 0) != []
    ensures var ps := Listing(Segment(doc), 0);
      Listing(Segment(Patched(doc, es).value), 0) == FrontRow(ps[0], Sorted(es)) + ps[1..]
  {
    hide GapsWhole, Segment, Listing, Sorted, Patched, EditDoc, Regular, Tidy, AllWork, EditsTame, Valid, ListEdit, EditsOf, ReadCell, Row, PieceOk, Shaped;
    var d, ordered := Segment(doc), Sorted(es);
    SegmentShaped(doc);
    PieceOkAt(d, 0);
    SortedFacts(es);
    FrontsWork(d, ordered);
    forall e | e in es ensures Valid(d, e) { FrontIsValid(d, e); }
    FrontsAllTame(d, ordered);
    ExtractAfterApply(doc, es);
    ListingLength(d, 0);
    var ps := Listing(d, 0);
    FrontsOf(ordered);
    FrontRowIs(ps[0], ordered);
    NothingBehind(ps[1..], ordered, 1);
    ListStep(ps, ordered);
  }

  lemma ListStep(ps: seq<Paragraph>, es: seq<Edit>)
    requires ps != []
    ensures ListEdit(ps, es, 0) == Row(ReadCell(ps[0], EditsOf(es, 0))) + ListEdit(ps[1..], es, 1)
  {
  }

  lemma FrontsAllTame(d: Doc, es: seq<Edit>)
    requires Size(d) > 0 && PieceAt(d, 0).Full? && Regular(PieceAt(d, 0)) && Tidy(PieceAt(d, 0)) && forall e :: e in es ==> Front(e)
    ensures EditsTame(d, es)
  {
    hide Regular, Tidy, PieceTame, EditsOf;
    FrontsOf(es);
    var text := FrontsTame(PieceAt(d, 0), es);
    forall k | 0 <= k < Size(d) ensures PieceTame(PieceAt(d, k), EditsOf(es, k)) {
      if k > 0 {
        NoneOf(es, k);
        NoneTame(PieceAt(d, k));
      }
    }
  }

  lemma NoneTame(p: Piece)
    ensures PieceTame(p, [])
  {
  }
}
