/** The scanner's loop: extents of all paragraphs, and which of them lie in a table. */
module DocxParas {
  import opened Prelude
  import opened Strings
  import opened DocxScan

  /** Occurrences of p starting in [from, to). */
  function Count(s: string, p: string, from: nat, to: nat): (n: nat)
    decreases to - from
  {
    if from >= to then 0 else (if At(s, p, from) then 1 else 0) + Count(s, p, from + 1, to)
  }

  /** All occurrences of p from `from` on, in order. */
  function PositionsOf(s: string, p: string, from: nat): seq<nat>
    requires from <= |s| && p != ""
    decreases |s| - from
  {
    match IndexOf(s, p, from)
    case None => []
    case Some(j) => [j] + PositionsOf(s, p, j + 1)
  }

  method Positions(doc: string, p: string) returns (ps: seq<nat>)
    requires p != ""
    ensures ps == PositionsOf(doc, p, 0)
  {
    hide At, PositionsOf, IndexOf;
    ps := [];
    var i := 0;
    var done := false;
    while !done
      invariant i <= |doc|
      invariant PositionsOf(doc, p, 0) == if done then ps else ps + PositionsOf(doc, p, i)
      decreases !done, |doc| - i
    {
      PositionsStep(doc, p, i, ps);
      match IndexOf(doc, p, i)
      case None =>
        done := true;
      case Some(j) =>
        ps := ps + [j];
        i := j + 1;
    }
  }

  lemma PositionsStep(s: string, p: string, from: nat, ps: seq<nat>)
    requires from <= |s| && p != ""
    ensures IndexOf(s, p, from).None? ==> ps + PositionsOf(s, p, from) == ps
    ensures IndexOf(s, p, from).Some? ==>
              var j := IndexOf(s, p, from).value;
              j < |s| && ps + PositionsOf(s, p, from) == (ps + [j]) + PositionsOf(s, p, j + 1)
  {
  }

  /** How many of the positions lie before `at`. */
  function Below(ps: seq<nat>, at: nat): nat {
    if ps == [] then 0 else (if ps[0] < at then 1 else 0) + Below(ps[1..], at)
  }

  method CountBefore(ps: seq<nat>, at: nat) returns (n: nat)
    ensures n == Below(ps, at)
  {
    n := 0;
    for i := 0 to |ps|
      invariant Below(ps, at) == n + Below(ps[i..], at)
    {
      assert ps[i..][1..] == ps[i + 1..];
      if ps[i] < at {
        n := n + 1;
      }
    }
  }

  lemma {:induction false} CountSkip(s: string, p: string, from: nat, mid: nat, to: nat)
    requires from <= mid <= to && forall j :: from <= j < mid ==> !At(s, p, j)
    ensures Count(s, p, from, to) == Count(s, p, mid, to)
    decreases mid - from
  {
    if from >= mid {
    } else {
      CountSkip(s, p, from + 1, mid, to);
    }
  }

  lemma {:induction false} LateBelow(s: string, p: string, from: nat, at: nat)
    requires from <= |s| && p != "" && at <= from
    ensures Below(PositionsOf(s, p, from), at) == 0
    decreases |s| - from
  {
    match IndexOf(s, p, from)
    case None =>
    case Some(j) => LateBelow(s, p, j + 1, at);
  }

  /** Counting the listed positions counts the occurrences. */
  lemma {:induction false} BelowIsCount(s: string, p: string, from: nat, at: nat)
    requires from <= at <= |s| && p != ""
    ensures Below(PositionsOf(s, p, from), at) == Count(s, p, from, at)
    decreases at - from
  {
    hide At;
    match IndexOf(s, p, from)
    case None => CountSkip(s, p, from, at, at);
    case Some(j) =>
      AtBounds(s, p, j);
      if j < at {
        CountSkip(s, p, from, j, at);
        BelowIsCount(s, p, j + 1, at);
      } else {
        CountSkip(s, p, from, at, at);
        LateBelow(s, p, j + 1, at);
      }
  }

  predicate InTable(doc: string, at: nat) {
    Count(doc, TABLE, 0, at) > Count(doc, TABLE_END, 0, at)
  }

  function ParaFor(doc: string, p: Piece, start: nat): Para {
    match p
    case Closed(tag) => Para(start, start + |tag|, 0, true, InTable(doc, start))
    case Full(open, inner) => Para(start, start + |PieceText(p)|, start + |open|, false, InTable(doc, start))
  }

  /** The extents of the paragraphs of d when its text starts at `base` in doc. */
  function Extents(doc: string, d: Doc, base: nat): seq<Para> {
    match d
    case Tail(gap) => []
    case Seg(gap, piece, rest) =>
      [ParaFor(doc, piece, base + |gap|)] + Extents(doc, rest, base + |gap| + |PieceText(piece)|)
  }

  lemma ExtentsStep(doc: string, i: nat, out: seq<Para>, a: nat, p: Piece)
    requires i <= |doc| && FirstPara(doc[i..]) == Some((a, p))
    ensures i + a + |PieceText(p)| <= |doc|
    ensures out + Extents(doc, Segment(doc[i..]), i)
      == (out + [ParaFor(doc, p, i + a)]) + Extents(doc, Segment(doc[i + a + |PieceText(p)|..]), i + a + |PieceText(p)|)
  {
    hide FirstPara, PieceText, ParaFor;
    var n := a + |PieceText(p)|;
    SegmentStep(doc[i..]);
    DropDrop(doc, i, n);
    assert |doc[i..][..a]| == a;
    ConsSeq(out, ParaFor(doc, p, i + a), Extents(doc, Segment(doc[i + n..]), i + n));
  }

  lemma ConsSeq(a: seq<Para>, x: Para, b: seq<Para>)
    ensures a + ([x] + b) == (a + [x]) + b
  {
  }

  predicate TagFound(rest: string, loc: nat, gt: nat) {
    FindP(rest, 0) == Some(loc) && loc <= |rest| && IndexOf(rest, ">", loc) == Some(gt) && loc < gt < |rest|
  }

  lemma ClosedStep(doc: string, i: nat, out: seq<Para>, loc: nat, gt: nat)
    requires i <= |doc| && TagFound(doc[i..], loc, gt) && doc[i + gt - 1] == '/'
    ensures
      var para := Para(i + loc, i + gt + 1, 0, true, InTable(doc, i + loc));
      out + Extents(doc, Segment(doc[i..]), i) == (out + [para]) + Extents(doc, Segment(doc[i + gt + 1..]), i + gt + 1)
  {
    hide FindP, IndexOf, Segment, Extents, InTable;
    ExtentsStep(doc, i, out, loc, Closed(doc[i..][loc..gt + 1]));
  }

  lemma FullStep(doc: string, i: nat, out: seq<Para>, loc: nat, gt: nat, close: nat)
    requires i <= |doc| && TagFound(doc[i..], loc, gt) && doc[i + gt - 1] != '/'
    requires IndexOf(doc[i..], CLOSE_P, gt + 1) == Some(close)
    ensures
      var end := i + close + |CLOSE_P|;
      var para := Para(i + loc, end, i + gt + 1, false, InTable(doc, i + loc));
      end <= |doc| && out + Extents(doc, Segment(doc[i..]), i) == (out + [para]) + Extents(doc, Segment(doc[end..]), end)
  {
    hide FirstPara, FindP, IndexOf, Segment, Extents, InTable, PieceText, ParaFor, At;
    AtBounds(doc[i..], CLOSE_P, close);
    var p := Full(doc[i..][loc..gt + 1], doc[i..][gt + 1..close]);
    FullFound(doc[i..], loc, gt, close);
    FullExtent(doc, p, i + loc);
    ExtentsStep(doc, i, out, loc, p);
  }

  lemma FullFound(rest: string, loc: nat, gt: nat, close: nat)
    requires TagFound(rest, loc, gt) && rest[gt - 1] != '/'
    requires IndexOf(rest, CLOSE_P, gt + 1) == Some(close) && close + |CLOSE_P| <= |rest|
    ensures FirstPara(rest) == Some((loc, Full(rest[loc..gt + 1], rest[gt + 1..close])))
  {
    hide FindP, IndexOf, At, POpen;
  }

  lemma FullExtent(doc: string, p: Piece, start: nat)
    requires p.Full?
    ensures |PieceText(p)| == |p.open| + |p.inner| + |CLOSE_P|
    ensures ParaFor(doc, p, start) == Para(start, start + |PieceText(p)|, start + |p.open|, false, InTable(doc, start))
  {
  }

  method ScanParas(doc: string) returns (out: seq<Para>)
    ensures out == Extents(doc, Segment(doc), 0)
  {
    hide Extents, InTable, FirstPara, Segment, FindP, IndexOf, Count, Below, PositionsOf, At, POpen;
    var tblOpens := Positions(doc, TABLE);
    var tblCloses := Positions(doc, TABLE_END);
    out := [];
    var i := 0;
    assert doc[0..] == doc;
    while i < |doc|
      invariant i <= |doc|
      invariant Extents(doc, Segment(doc), 0) == out + Extents(doc, Segment(doc[i..]), i)
      decreases |doc| - i
    {
      var rest := doc[i..];
      var loc := FindP(rest, 0);
      CutOff(rest);
      if loc == None {
        NoMore(doc, i, out);
        return;
      }
      var pAt := i + loc.value;
      var opens := CountBefore(tblOpens, pAt);
      var closes := CountBefore(tblCloses, pAt);
      var inTable := opens > closes;
      assert inTable == InTable(doc, pAt) by { TableFlag(doc, pAt); }
      var gt := IndexOf(rest, ">", loc.value);
      if gt == None {
        NoMore(doc, i, out);
        return;
      }
      var openEnd := i + gt.value + 1;
      if doc[openEnd - 2] == '/' {
        var para := Para(pAt, openEnd, 0, true, inTable);
        ClosedStep(doc, i, out, loc.value, gt.value);
        out := out + [para];
        i := openEnd;
      } else {
        var close := IndexOf(rest, CLOSE_P, gt.value + 1);
        if close == None {
          NoMore(doc, i, out);
          return;
        }
        var end := i + close.value + |CLOSE_P|;
        var para := Para(pAt, end, openEnd, false, inTable);
        FullStep(doc, i, out, loc.value, gt.value, close.value);
        out := out + [para];
        i := end;
      }
    }
    NothingLeft(doc, i, out);
  }

  lemma TableFlag(doc: string, at: nat)
    requires at <= |doc|
    ensures (Below(PositionsOf(doc, TABLE, 0), at) > Below(PositionsOf(doc, TABLE_END, 0), at)) == InTable(doc, at)
  {
    BelowIsCount(doc, TABLE, 0, at);
    BelowIsCount(doc, TABLE_END, 0, at);
  }

  /** The scan ends where no start tag, no end of it, or no closing tag is found. */
  lemma CutOff(rest: string)
    ensures
      match FindP(rest, 0)
      case None => FirstPara(rest) == None
      case Some(loc) =>
        match IndexOf(rest, ">", loc)
        case None => FirstPara(rest) == None
        case Some(gt) =>
          TagFound(rest, loc, gt) && (rest[gt - 1] != '/' && IndexOf(rest, CLOSE_P, gt + 1) == None ==> FirstPara(rest) == None)
  {
    hide FindP, IndexOf, POpen, At;
    match FindP(rest, 0)
    case None =>
    case Some(loc) =>
      match IndexOf(rest, ">", loc)
      case None =>
      case Some(gt) => AfterOpen(rest, loc, gt);
  }

  lemma NoMore(doc: string, i: nat, out: seq<Para>)
    requires i <= |doc| && FirstPara(doc[i..]) == None
    ensures out == out + Extents(doc, Segment(doc[i..]), i)
  {
    hide FirstPara;
    SegmentStep(doc[i..]);
  }

  lemma NothingLeft(doc: string, i: nat, out: seq<Para>)
    requires i == |doc|
    ensures out == out + Extents(doc, Segment(doc[i..]), i)
  {
    assert FindP(doc[i..], 0) == None;
    NoMore(doc, i, out);
  }
}
