/** Reading the paragraphs back from a document. */
module DocxExtract {
  import opened Prelude
  import opened Strings
  import opened Markup
  import opened DocxText
  import opened DocxScan
  import opened DocxParas
  import opened DocxParts
  import opened DocxStyle
  import opened DocxEdits
  import opened DocxApply

  /** A paragraph as listed; its index is its position in the list. */
  datatype Paragraph = Paragraph(style: string, text: string, inTable: bool, hasNonText: bool)

  function Described(p: Piece, inTable: bool): Paragraph {
    match p
    case Closed(_) => Paragraph("", "", inTable, false)
    case Full(_, inner) =>
      Paragraph(if Style(inner).Some? then Style(inner).value else "", TextOf(inner), inTable, HasNonText(inner))
  }

  /** Tables opened and not closed within x. */
  function Depth(x: string): int {
    Count(x, TABLE, 0, |x|) - Count(x, TABLE_END, 0, |x|)
  }

  /** The list of paragraphs of d inside `depth` tables. */
  function Listing(d: Doc, depth: int): seq<Paragraph> {
    match d
    case Tail(_) => []
    case Seg(gap, piece, rest) =>
      [Described(piece, depth + Depth(gap) > 0)] + Listing(rest, depth + Depth(gap) + Depth(PieceText(piece)))
  }

  // ---------------------------------------------------------- counting table tags

  lemma {:induction false} CountSum(s: string, p: string, a: nat, b: nat, c: nat)
    requires a <= b <= c
    ensures Count(s, p, a, c) == Count(s, p, a, b) + Count(s, p, b, c)
    decreases b - a
  {
    if a >= b {
    } else {
      CountSum(s, p, a + 1, b, c);
    }
  }

  /** Occurrences do not straddle the border between x and z. */
  predicate Bordered(x: string, z: string) {
    TagWhole(x) || z == "" || z[0] == '<'
  }

  lemma BorderedSplit(x: string, z: string, p: string, i: int)
    requires Bordered(x, z) && TagPattern(p) && (forall k :: 1 <= k < |p| ==> p[k] != '<') && i < |x|
    ensures At(x + z, p, i) <==> At(x, p, i)
  {
    if i + |p| <= |x| {
      AtLeft(x, z, p, i);
    } else if TagWhole(x) {
      if 0 <= i { NoStraddle(x, z, p, i); }
    } else if At(x + z, p, i) {
      AtChars(x + z, p, i, |x| - i);
    }
  }

  lemma {:induction false} CountLeft(x: string, z: string, p: string, from: nat)
    requires Bordered(x, z) && TagPattern(p) && (forall k :: 1 <= k < |p| ==> p[k] != '<') && from <= |x|
    ensures Count(x + z, p, from, |x|) == Count(x, p, from, |x|)
    decreases |x| - from
  {
    hide At, Bordered, TagPattern;
    if from >= |x| {
    } else {
      BorderedSplit(x, z, p, from);
      CountLeft(x, z, p, from + 1);
    }
  }

  lemma {:induction false} CountRight(x: string, z: string, p: string, from: nat, to: nat)
    requires from <= to <= |z|
    ensures Count(x + z, p, |x| + from, |x| + to) == Count(z, p, from, to)
    decreases |z| - from
  {
    hide At;
    if from >= to {
    } else {
      AtRight(x, z, p, |x| + from);
      CountRight(x, z, p, from + 1, to);
    }
  }

  lemma CountConcat(x: string, z: string, p: string)
    requires Bordered(x, z) && TagPattern(p) && forall k :: 1 <= k < |p| ==> p[k] != '<'
    ensures Count(x + z, p, 0, |x + z|) == Count(x, p, 0, |x|) + Count(z, p, 0, |z|)
  {
    hide At, Count;
    CountSum(x + z, p, 0, |x|, |x + z|);
    CountLeft(x, z, p, 0);
    CountRight(x, z, p, 0, |z|);
  }

  lemma TableTags()
    ensures TagPattern(TABLE) && TagPattern(TABLE_END)
    ensures forall k :: 1 <= k < |TABLE| ==> TABLE[k] != '<'
    ensures forall k :: 1 <= k < |TABLE_END| ==> TABLE_END[k] != '<'
  {
  }

  lemma DepthConcat(x: string, z: string)
    requires Bordered(x, z)
    ensures Depth(x + z) == Depth(x) + Depth(z)
  {
    hide Count, Bordered, TagPattern;
    TableTags();
    CountConcat(x, z, TABLE);
    CountConcat(x, z, TABLE_END);
  }

  lemma DepthAt(x: string, z: string)
    requires Bordered(x, z)
    ensures InTable(x + z, |x|) <==> Depth(x) > 0
  {
    hide Count, Bordered, TagPattern;
    TableTags();
    CountLeft(x, z, TABLE, 0);
    CountLeft(x, z, TABLE_END, 0);
  }

  lemma PieceBorders(p: Piece, z: string)
    requires PieceOk(p)
    ensures PieceText(p) != "" && PieceText(p)[0] == '<'
    ensures TagWhole(PieceText(p))
  {
    var t := PieceText(p);
    var tag := if p.Closed? then p.tag else p.open;
    POpenChar(tag, 0);
    assert t[0] == tag[0];
    assert t[|t| - 1] == '>';
    EndsWithTagWhole(t);
  }

  lemma StartsLt(p: Piece, z: string)
    requires PieceOk(p)
    ensures PieceText(p) + z != "" && (PieceText(p) + z)[0] == '<'
  {
    PieceBorders(p, z);
  }

  /** Depth at paragraph k, summed over the gaps and paragraphs before it. */
  lemma {:induction false} DepthBefore(d: Doc, k: nat)
    requires Shaped(d) && k < Size(d)
    ensures Depth(Before(d, k)) == Depth(d.gap) + if k == 0 then 0 else Depth(PieceText(d.piece)) + Depth(Before(d.rest, k - 1))
  {
    hide Depth, PieceText, PieceOk, Before;
    if k > 0 {
      var b := Before(d.rest, k - 1);
      PieceBorders(d.piece, b);
      StartsLt(d.piece, b);
      BeforeStep(d, k);
      DepthConcat(d.gap, PieceText(d.piece) + b);
      DepthConcat(PieceText(d.piece), b);
    } else {
      BeforeStep(d, k);
    }
  }

  lemma BeforeStep(d: Doc, k: nat)
    requires k < Size(d)
    ensures Before(d, k) == if k == 0 then d.gap else d.gap + (PieceText(d.piece) + Before(d.rest, k - 1))
  {
  }

  lemma {:induction false} ListingAt(d: Doc, depth: int, k: nat)
    requires Shaped(d) && k < Size(d)
    ensures |Listing(d, depth)| == Size(d)
    ensures Listing(d, depth)[k] == Described(PieceAt(d, k), depth + Depth(Before(d, k)) > 0)
  {
    hide Depth, Described, PieceText, PieceOk, NoPOpen;
    ListingLength(d, depth);
    DepthBefore(d, k);
    if k == 0 {
    } else {
      ListingAt(d.rest, depth + Depth(d.gap) + Depth(PieceText(d.piece)), k - 1);
    }
  }

  lemma {:induction false} ListingLength(d: Doc, depth: int)
    ensures |Listing(d, depth)| == Size(d)
  {
    hide Depth, Described, PieceText;
    match d
    case Tail(_) =>
    case Seg(gap, piece, rest) => ListingLength(rest, depth + Depth(gap) + Depth(PieceText(piece)));
  }

  lemma {:induction false} TextParts(d: Doc, k: nat)
    requires k < Size(d)
    ensures Text(d) == Before(d, k) + (PieceText(PieceAt(d, k)) + Text(After(d, k)))
  {
    hide PieceText;
    if k == 0 {
    } else {
      TextParts(d.rest, k - 1);
      Regroup3(d.gap, PieceText(d.piece), Before(d.rest, k - 1), PieceText(PieceAt(d, k)) + Text(After(d, k)));
    }
  }

  lemma {:induction false} PieceOkAt(d: Doc, k: nat)
    requires Shaped(d) && k < Size(d)
    ensures PieceOk(PieceAt(d, k))
  {
    hide PieceOk, NoPOpen, FirstPara;
    if k == 0 {
    } else {
      PieceOkAt(d.rest, k - 1);
    }
  }

  lemma TableHere(doc: string, k: nat)
    requires k < Size(Segment(doc))
    ensures InTable(doc, |Before(Segment(doc), k)|) <==> Depth(Before(Segment(doc), k)) > 0
  {
    hide Depth, InTable, PieceText, PieceOk, Segment, Before, After, Shaped, Text;
    var d := Segment(doc);
    SegmentKeepsText(doc);
    SegmentShaped(doc);
    PieceOkAt(d, k);
    TextParts(d, k);
    StartsLt(PieceAt(d, k), Text(After(d, k)));
    DepthAt(Before(d, k), PieceText(PieceAt(d, k)) + Text(After(d, k)));
  }

  lemma ParagraphHere(doc: string, k: nat)
    requires k < Size(Segment(doc))
    ensures |Extents(doc, Segment(doc), 0)| == Size(Segment(doc))
    ensures var q, p := Extents(doc, Segment(doc), 0)[k], PieceAt(Segment(doc), k);
      && Extent(doc, q) && q.selfClosed == p.Closed? && q.start == |Before(Segment(doc), k)|
      && q.inTable == InTable(doc, q.start)
      && (p.Full? ==> doc[q.openEnd..q.end - |CLOSE_P|] == p.inner)
  {
    hide InTable, PieceText, Segment, Before, After, Text, Extents, Rendered, Size, PieceAt, Extent, Rewrite;
    var d := Segment(doc);
    SegmentKeepsText(doc);
    TextParts(d, k);
    ExtentAt(doc, d, 0, k);
    RenderedIs(doc, doc, Before(d, k), PieceAt(d, k), Text(After(d, k)), "");
  }

  lemma ListedParagraph(doc: string, k: nat)
    requires k < Size(Segment(doc))
    ensures |Extents(doc, Segment(doc), 0)| == |Listing(Segment(doc), 0)| == Size(Segment(doc))
    ensures var q, p := Extents(doc, Segment(doc), 0)[k], PieceAt(Segment(doc), k);
      && Extent(doc, q) && q.selfClosed == p.Closed?
      && (p.Full? ==> doc[q.openEnd..q.end - |CLOSE_P|] == p.inner)
      && Listing(Segment(doc), 0)[k] == Described(p, q.inTable)
  {
    hide Depth, InTable, PieceText, Segment, Before, After, Shaped, Described, Text, Listing, Extents, Size, PieceAt, Extent;
    SegmentShaped(doc);
    ParagraphHere(doc, k);
    ListingAt(Segment(doc), 0, k);
    TableHere(doc, k);
  }

  /** The reading loop over the scanned extents. */
  method Extract(doc: string) returns (out: seq<Paragraph>)
    ensures out == Listing(Segment(doc), 0)
  {
    hide Segment, Listing, Extents, Size, PieceAt, Style, HasNonText, TextOf;
    var paras := ScanParas(doc);
    ExtentsLength(doc, Segment(doc), 0);
    ListingLength(Segment(doc), 0);
    out := [];
    for k := 0 to |paras|
      invariant out == Listing(Segment(doc), 0)[..k]
    {
      ListedParagraph(doc, k);
      var p := paras[k];
      var pg := Paragraph("", "", p.inTable, false);
      if !p.selfClosed {
        var inner := doc[p.openEnd..p.end - |CLOSE_P|];
        var text := ParaText(inner);
        pg := pg.(text := text, hasNonText := HasNonText(inner));
        var style := Style(inner);
        if style.Some? {
          pg := pg.(style := style.value);
        }
      }
      out := out + [pg];
    }
  }
}
