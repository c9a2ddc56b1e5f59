/** Scanning a document into gaps and paragraphs, and putting it together again. */
module DocxScan {
  import opened Prelude
  import opened Strings

  const CLOSE_P := "</w:p>"
  const TABLE := "<w:tbl>"
  const TABLE_END := "</w:tbl>"

  /** An empty paragraph  <w:p/> , or a start tag with the content up to the first closing tag. */
  datatype Piece = Closed(tag: string) | Full(open: string, inner: string)

  /** A document is text between paragraphs, which the patcher never looks into, and paragraphs. */
  datatype Doc = Tail(gap: string) | Seg(gap: string, piece: Piece, rest: Doc)

  /** The extent of one paragraph in its document, as the scanner reports it. */
  datatype Para = Para(start: nat, end: nat, openEnd: nat, selfClosed: bool, inTable: bool)

  function PieceText(p: Piece): (r: string) {
    match p
    case Closed(tag) => tag
    case Full(open, inner) => open + (inner + CLOSE_P)
  }

  function Text(d: Doc): string {
    match d
    case Tail(gap) => gap
    case Seg(gap, piece, rest) => gap + (PieceText(piece) + Text(rest))
  }

  predicate POpen(s: string, i: int) {
    At(s, "<w:p ", i) || At(s, "<w:p>", i) || At(s, "<w:p/", i)
  }

  function FindP(s: string, from: nat): (r: Option<nat>)
    requires from <= |s|
    ensures r.Some? ==> from <= r.value < |s| && POpen(s, r.value) && forall j :: from <= j < r.value ==> !POpen(s, j)
    ensures r.None? ==> forall j :: from <= j ==> !POpen(s, j)
    decreases |s| - from
  {
    if POpen(s, from) then Some(from)
    else if from == |s| then None
    else FindP(s, from + 1)
  }

  lemma FindPIs(s: string, from: nat, i: nat)
    requires from <= i && POpen(s, i) && forall j :: from <= j < i ==> !POpen(s, j)
    ensures from <= |s| && FindP(s, from) == Some(i)
  {
  }

  /** The paragraph whose start tag is [a, g] in s, unless it is cut off. */
  function ParaAt(s: string, a: nat, g: nat): (r: Option<Piece>)
    requires a < g < |s|
  {
    if s[g - 1] == '/' then Some(Closed(s[a..g + 1]))
    else
      match IndexOf(s, CLOSE_P, g + 1)
      case None => None
      case Some(c) => Some(Full(s[a..g + 1], s[g + 1..c]))
  }

  /** The first paragraph of s and where it starts; none when a tag or a paragraph is cut off. */
  function FirstPara(s: string): (r: Option<(nat, Piece)>)
    ensures r.Some? ==> r.value.0 + |PieceText(r.value.1)| <= |s| && |PieceText(r.value.1)| > 0
  {
    match FindP(s, 0)
    case None => None
    case Some(a) =>
      match IndexOf(s, ">", a)
      case None => None
      case Some(g) =>
        assert a < g by { POpenChar(s, a); }
        match ParaAt(s, a, g)
        case None => None
        case Some(p) =>
          ParaAtText(s, a, g);
          Some((a, p))
  }

  lemma ParaAtText(s: string, a: nat, g: nat)
    requires a < g < |s| && ParaAt(s, a, g).Some?
    ensures At(s, PieceText(ParaAt(s, a, g).value), a) && |PieceText(ParaAt(s, a, g).value)| > 0
  {
    hide At;
    if s[g - 1] == '/' {
      SliceAt(s, a, g + 1);
    } else {
      var c := IndexOf(s, CLOSE_P, g + 1).value;
      ClosedBy(s, a, g + 1, c);
    }
  }

  lemma SliceAt(s: string, a: nat, b: nat)
    requires a <= b <= |s|
    ensures At(s, s[a..b], a)
  {
  }

  lemma ClosedBy(s: string, a: nat, b: nat, c: nat)
    requires a <= b <= c && At(s, CLOSE_P, c)
    ensures At(s, s[a..b] + (s[b..c] + CLOSE_P), a)
  {
    SlicesJoin(s, a, b, c, c + |CLOSE_P|);
  }

  lemma FirstParaText(s: string, a: nat, p: Piece)
    requires FirstPara(s) == Some((a, p))
    ensures At(s, PieceText(p), a)
  {
    POpenChar(s, a);
    ParaAtText(s, a, IndexOf(s, ">", a).value);
  }

  lemma POpenChar(s: string, a: int)
    requires POpen(s, a)
    ensures 0 <= a < |s| && s[a] == '<'
  {
    if At(s, "<w:p ", a) { AtChars(s, "<w:p ", a, 0); }
    else if At(s, "<w:p>", a) { AtChars(s, "<w:p>", a, 0); }
    else { AtChars(s, "<w:p/", a, 0); }
  }

  lemma SlicesJoin(s: string, a: nat, b: nat, c: nat, d: nat)
    requires a <= b <= c <= d <= |s|
    ensures s[a..b] + (s[b..c] + s[c..d]) == s[a..d]
  {
  }

  function Segment(s: string): Doc
    decreases |s|
  {
    match FirstPara(s)
    case None => Tail(s)
    case Some((a, p)) => Seg(s[..a], p, Segment(s[a + |PieceText(p)|..]))
  }

  lemma SegmentStep(s: string)
    ensures FirstPara(s).None? ==> Segment(s) == Tail(s)
    ensures FirstPara(s).Some? ==>
              var (a, p) := FirstPara(s).value;
              Segment(s) == Seg(s[..a], p, Segment(s[a + |PieceText(p)|..]))
  {
    hide FirstPara, PieceText;
  }

  lemma JoinAround(s: string, t: string, a: nat)
    requires At(s, t, a)
    ensures s[..a] + (t + s[a + |t|..]) == s
  {
  }

  lemma ScannedText(s: string, a: nat, p: Piece, rest: Doc)
    requires FirstPara(s) == Some((a, p)) && Text(rest) == s[a + |PieceText(p)|..]
    ensures Text(Seg(s[..a], p, rest)) == s
  {
    FirstParaText(s, a, p);
    JoinAround(s, PieceText(p), a);
  }

  lemma {:induction false} SegmentKeepsText(s: string)
    ensures Text(Segment(s)) == s
    decreases |s|
  {
    hide FirstPara, PieceText;
    match FirstPara(s)
    case None =>
    case Some((a, p)) =>
      SegmentKeepsText(s[a + |PieceText(p)|..]);
      ScannedText(s, a, p, Segment(s[a + |PieceText(p)|..]));
  }

  // ------------------------------------------------------------ what is scanned

  ghost predicate NoPOpen(s: string) {
    forall i: int :: !POpen(s, i)
  }

  /** A start tag ends at its first '>'. */
  predicate OneTag(t: string) {
    POpen(t, 0) && |t| >= 5 && t[|t| - 1] == '>' && forall k :: 0 <= k < |t| - 1 ==> t[k] != '>'
  }

  predicate PieceOk(p: Piece) {
    match p
    case Closed(tag) => OneTag(tag) && tag[|tag| - 2] == '/'
    case Full(open, inner) => OneTag(open) && open[|open| - 2] != '/' && !Contains(inner, CLOSE_P)
  }

  /** What every scan result satisfies. */
  ghost predicate Shaped(d: Doc) {
    match d
    case Tail(gap) => FirstPara(gap) == None
    case Seg(gap, piece, rest) => NoPOpen(gap) && PieceOk(piece) && Shaped(rest)
  }

  /** No tag is cut off by the start of a paragraph. */
  predicate GapsWhole(d: Doc) {
    match d
    case Tail(gap) => true
    case Seg(gap, piece, rest) => TagWhole(gap) && GapsWhole(rest)
  }

  lemma SubNoPOpen(s: string, a: nat)
    requires a <= |s| && forall j :: 0 <= j < a ==> !POpen(s, j)
    ensures NoPOpen(s[..a])
  {
    assert s == s[..a] + s[a..];
    forall i: int ensures !POpen(s[..a], i) {
      if 0 <= i {
        PrefixOpen(s[..a], s[a..], i);
        if POpen(s[..a], i) { POpenChar(s[..a], i); }
      }
    }
  }

  lemma PrefixOpen(x: string, z: string, i: int)
    ensures POpen(x, i) ==> POpen(x + z, i)
  {
    if At(x, "<w:p ", i) { AtLeft(x, z, "<w:p ", i); }
    if At(x, "<w:p>", i) { AtLeft(x, z, "<w:p>", i); }
    if At(x, "<w:p/", i) { AtLeft(x, z, "<w:p/", i); }
  }

  lemma TagSlice(s: string, a: nat, g: nat)
    requires POpen(s, a) && a < g < |s| && s[g] == '>' && forall j :: a <= j < g ==> s[j] != '>'
    ensures OneTag(s[a..g + 1])
  {
    OpenerCovered(s, "<w:p ", a, g);
    OpenerCovered(s, "<w:p>", a, g);
    OpenerCovered(s, "<w:p/", a, g);
  }

  lemma OpenerCovered(s: string, p: string, a: nat, g: nat)
    requires a < g < |s| && s[g] == '>' && |p| == 5 && forall k :: 0 <= k < 4 ==> p[k] != '>'
    ensures At(s, p, a) ==> a + 4 <= g && At(s[a..g + 1], p, 0)
  {
    if At(s, p, a) {
      if g - a < 4 { AtChars(s, p, a, g - a); }
      assert s[a..g + 1][0..5] == s[a..a + 5];
    }
  }

  lemma FirstNoGt(s: string, a: nat, g: nat)
    requires a <= |s| && IndexOf(s, ">", a) == Some(g)
    ensures s[g] == '>' && forall j :: a <= j < g ==> s[j] != '>'
  {
    AtOne(s, '>', g);
    forall j: int | a <= j < g ensures s[j] != '>' {
      AtOne(s, '>', j);
      assert !At(s, ">", j);
    }
  }

  lemma AtOne(s: string, c: char, j: int)
    requires 0 <= j < |s|
    ensures At(s, [c], j) <==> s[j] == c
  {
    assert s[j..j + 1] == [s[j]];
  }

  lemma InnerSlice(s: string, b: nat, c: nat)
    requires b <= c <= |s| && IndexOf(s, CLOSE_P, b) == Some(c)
    ensures !Contains(s[b..c], CLOSE_P)
  {
    forall i | 0 <= i <= c - b ensures !At(s[b..c], CLOSE_P, i) {
      if At(s[b..c], CLOSE_P, i) {
        assert s[b + i..b + i + |CLOSE_P|] == s[b..c][i..i + |CLOSE_P|];
        assert At(s, CLOSE_P, b + i);
      }
    }
  }

  lemma FoundTag(s: string, a: nat, g: nat)
    requires FindP(s, 0) == Some(a) && a <= |s| && IndexOf(s, ">", a) == Some(g)
    ensures NoPOpen(s[..a]) && a < g && OneTag(s[a..g + 1]) && s[a..g + 1][g - 1 - a] == s[g - 1]
  {
    SubNoPOpen(s, a);
    POpenChar(s, a);
    FirstNoGt(s, a, g);
    TagSlice(s, a, g);
  }

  lemma ParaAtOk(s: string, a: nat, g: nat)
    requires a < g < |s| && OneTag(s[a..g + 1]) && s[a..g + 1][g - 1 - a] == s[g - 1]
    ensures ParaAt(s, a, g).Some? ==> PieceOk(ParaAt(s, a, g).value)
  {
    if ParaAt(s, a, g).Some? && s[g - 1] != '/' {
      InnerSlice(s, g + 1, IndexOf(s, CLOSE_P, g + 1).value);
    }
  }

  lemma FirstParaOk(s: string, a: nat, p: Piece)
    requires FirstPara(s) == Some((a, p))
    ensures NoPOpen(s[..a]) && PieceOk(p)
  {
    var g := IndexOf(s, ">", a).value;
    FoundTag(s, a, g);
    ParaAtOk(s, a, g);
  }

  lemma ShapedSeg(gap: string, p: Piece, rest: Doc)
    requires NoPOpen(gap) && PieceOk(p) && Shaped(rest)
    ensures Shaped(Seg(gap, p, rest))
  {
  }

  lemma {:induction false} SegmentShaped(s: string)
    ensures Shaped(Segment(s))
    decreases |s|
  {
    hide FirstPara, PieceText, NoPOpen, PieceOk;
    match FirstPara(s)
    case None =>
    case Some((a, p)) =>
      var rest := s[a + |PieceText(p)|..];
      FirstParaOk(s, a, p);
      SegmentShaped(rest);
      ShapedSeg(s[..a], p, Segment(rest));
  }

  // --------------------------------------------------- scanning what was put together

  lemma POpenSplit(x: string, z: string, i: int)
    requires TagWhole(x)
    ensures POpen(x + z, i) <==> POpen(x, i) || POpen(z, i - |x|)
  {
    OccurrencesSplit(x, z, "<w:p ", i);
    OccurrencesSplit(x, z, "<w:p>", i);
    OccurrencesSplit(x, z, "<w:p/", i);
  }

  lemma FindPShift(x: string, z: string)
    requires TagWhole(x) && NoPOpen(x)
    ensures FindP(x + z, 0) == Shift(FindP(z, 0), |x|)
  {
    hide At, TagWhole;
    forall i: int { POpenSplit(x, z, i); }
    forall i: int | i < |x| ensures !POpen(x + z, i) {
      if POpen(z, i - |x|) { POpenChar(z, i - |x|); }
    }
    match FindP(z, 0)
    case Some(v) =>
      forall j: nat | j < |x| + v ensures !POpen(x + z, j) {
        assert !POpen(x, j);
        assert POpen(z, j - |x|) ==> j < |x|;
      }
      FindPIs(x + z, 0, |x| + v);
    case None =>
      forall j: int | 0 <= j ensures !POpen(x + z, j) {
        assert !POpen(x, j);
        assert POpen(z, j - |x|) ==> j < |x|;
      }
  }

  lemma ParaAtShift(x: string, z: string, a: nat, g: nat)
    requires a < g < |z|
    ensures ParaAt(x + z, |x| + a, |x| + g) == ParaAt(z, a, g)
  {
    hide IndexOf;
    var w := x + z;
    assert w[|x| + g - 1] == z[g - 1];
    MidSlice(x, z, a, g + 1);
    IndexOfShift(x, z, CLOSE_P, g + 1);
    match IndexOf(z, CLOSE_P, g + 1)
    case Some(c) => MidSlice(x, z, g + 1, c);
    case None =>
  }

  lemma MidSlice(x: string, z: string, a: nat, b: nat)
    requires a <= b <= |z|
    ensures (x + z)[|x| + a..|x| + b] == z[a..b]
  {
  }

  /** A gap with whole tags and no paragraph in it does not disturb the scan of what follows. */
  lemma FirstShift(x: string, z: string)
    requires TagWhole(x) && NoPOpen(x)
    ensures FirstPara(z).None? ==> FirstPara(x + z) == None
    ensures FirstPara(z).Some? ==> FirstPara(x + z) == Some((|x| + FirstPara(z).value.0, FirstPara(z).value.1))
  {
    hide IndexOf, FindP, ParaAt, TagWhole, NoPOpen, At, PieceText;
    FindPShift(x, z);
    match FindP(z, 0)
    case None =>
    case Some(a) =>
      IndexOfShift(x, z, ">", a);
      match IndexOf(z, ">", a)
      case None =>
      case Some(g) =>
        AfterOpen(z, a, g);
        ParaAtShift(x, z, a, g);
  }

  lemma AfterOpen(z: string, a: nat, g: nat)
    requires POpen(z, a) && a <= g && At(z, ">", g)
    ensures a < g < |z|
  {
    POpenChar(z, a);
    AtOne(z, '>', g);
  }

  lemma CloseFirst(inner: string, z: string)
    requires !Contains(inner, CLOSE_P)
    ensures IndexOf(inner + (CLOSE_P + z), CLOSE_P, 0) == Some(|inner|)
  {
    hide At, Contains;
    forall j: nat | j < |inner| { CloseInside(inner, z, j); }
    AtLeft(CLOSE_P, z, CLOSE_P, 0);
    SliceAt(CLOSE_P, 0, |CLOSE_P|);
    assert CLOSE_P[0..|CLOSE_P|] == CLOSE_P;
    AtRight(inner, CLOSE_P + z, CLOSE_P, |inner|);
    IndexOfIs(inner + (CLOSE_P + z), CLOSE_P, 0, |inner|);
  }

  lemma CloseInside(inner: string, z: string, j: nat)
    requires !Contains(inner, CLOSE_P) && j < |inner|
    ensures !At(inner + (CLOSE_P + z), CLOSE_P, j)
  {
    if j + |CLOSE_P| <= |inner| {
      AtLeft(inner, CLOSE_P + z, CLOSE_P, j);
    } else if At(inner + (CLOSE_P + z), CLOSE_P, j) {
      AtChars(inner + (CLOSE_P + z), CLOSE_P, j, |inner| - j);
    }
  }

  lemma FirstTag(tag: string, y: string)
    requires OneTag(tag)
    ensures FindP(tag + y, 0) == Some(0)
    ensures IndexOf(tag + y, ">", 0) == Some(|tag| - 1)
    ensures (tag + y)[|tag| - 2] == tag[|tag| - 2] && (tag + y)[0..|tag|] == tag
  {
    PrefixOpen(tag, y, 0);
    var w := tag + y;
    forall j: nat | j < |tag| ensures At(w, ">", j) <==> j == |tag| - 1 {
      AtOne(w, '>', j);
    }
    IndexOfIs(w, ">", 0, |tag| - 1);
  }

  lemma FirstOfPiece(p: Piece, z: string)
    requires PieceOk(p)
    ensures FirstPara(PieceText(p) + z) == Some((0, p))
  {
    hide FindP, IndexOf, OneTag, At, Contains;
    match p
    case Closed(tag) =>
      FirstTag(tag, z);
    case Full(open, inner) =>
      var y := inner + (CLOSE_P + z);
      FullText(open, inner, z);
      FirstTag(open, y);
      CloseFirst(inner, z);
      IndexOfShift(open, y, CLOSE_P, 0);
      MidSlice(open, y, 0, |inner|);
      assert y[0..|inner|] == inner;
  }

  lemma FullText(open: string, inner: string, z: string)
    ensures (open + (inner + CLOSE_P)) + z == open + (inner + (CLOSE_P + z))
  {
  }

  /** Text put in front of a document's first gap. */
  function Prepend(x: string, d: Doc): Doc {
    match d
    case Tail(gap) => Tail(x + gap)
    case Seg(gap, piece, rest) => Seg(x + gap, piece, rest)
  }

  lemma SegmentGap(x: string, z: string)
    requires TagWhole(x) && NoPOpen(x)
    ensures Segment(x + z) == Prepend(x, Segment(z))
  {
    hide FirstPara, PieceText, TagWhole, NoPOpen, Segment;
    FirstShift(x, z);
    SegmentStep(z);
    SegmentStep(x + z);
    match FirstPara(z)
    case None =>
    case Some((a, p)) =>
      GapSlices(x, z, a, |PieceText(p)|);
  }

  lemma GapSlices(x: string, z: string, a: nat, n: nat)
    requires a + n <= |z|
    ensures (x + z)[..|x| + a] == x + z[..a]
    ensures (x + z)[|x| + a + n..] == z[a + n..]
  {
  }

  lemma SegmentPiece(p: Piece, z: string)
    requires PieceOk(p)
    ensures Segment(PieceText(p) + z) == Seg("", p, Segment(z))
  {
    hide FirstPara, PieceText, PieceOk;
    FirstOfPiece(p, z);
    assert (PieceText(p) + z)[..0] == "";
    assert (PieceText(p) + z)[|PieceText(p)|..] == z;
  }

  /** What was put together from gaps with whole tags is taken apart the same way. */
  lemma {:induction false} SegmentOfText(d: Doc)
    requires Shaped(d) && GapsWhole(d)
    ensures Segment(Text(d)) == d
  {
    hide Segment, PieceText, PieceOk, NoPOpen, FirstPara;
    match d
    case Tail(gap) => SegmentStep(gap);
    case Seg(gap, piece, rest) =>
      SegmentGap(gap, PieceText(piece) + Text(rest));
      SegmentPiece(piece, Text(rest));
      SegmentOfText(rest);
      assert gap + "" == gap;
  }
}
