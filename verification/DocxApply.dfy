/** Splicing as an edit of the list. */
module DocxApply {
  import opened Prelude
  import opened Strings
  import opened DocxText
  import opened DocxScan
  import opened DocxParas
  import opened DocxParts
  import opened DocxStyle
  import opened DocxProps
  import opened DocxEdits
  import opened DocxFront

  /** OutOfRange stands for a slice past the end of the text, which stops the program. */
  datatype Error = NoSuchParagraph(op: string, index: int) | NonTextContent(index: int) | UnknownOp(op: string) | OutOfRange(index: int)

  // -------------------------------------------------------------- sorting edits

  predicate Descending(s: seq<Edit>) {
    forall i, j :: 0 <= i < j < |s| ==> s[i].index >= s[j].index
  }

  function Swap(s: seq<Edit>, i: nat, j: nat): (r: seq<Edit>)
    requires i < j < |s|
    ensures |r| == |s| && multiset(r) == multiset(s)
  {
    s[i := s[j]][j := s[i]]
  }

  /** The inner loop of the exchange sort: edit i against those from j on. */
  function Exchanged(s: seq<Edit>, i: nat, j: nat): (r: seq<Edit>)
    requires i < |s| && i < j
    ensures |r| == |s|
    decreases |s| - j
  {
    if j >= |s| then s
    else Exchanged(if s[j].index > s[i].index then Swap(s, i, j) else s, i, j + 1)
  }

  function SortedFrom(s: seq<Edit>, i: nat): (r: seq<Edit>)
    requires i <= |s|
    ensures |r| == |s|
    decreases |s| - i
  {
    if i == |s| then s else SortedFrom(Exchanged(s, i, i + 1), i + 1)
  }

  /** The edits in the order in which they are made. */
  function Sorted(edits: seq<Edit>): seq<Edit> {
    SortedFrom(edits, 0)
  }

  method SortBottomUp(edits: seq<Edit>) returns (ordered: seq<Edit>)
    ensures ordered == Sorted(edits) && Descending(ordered) && multiset(ordered) == multiset(edits)
  {
    SortedFacts(edits);
    ordered := edits;
    var n := |edits|;
    var i := 0;
    while i < n
      invariant 0 <= i <= n && |ordered| == n
      invariant SortedFrom(ordered, i) == Sorted(edits)
    {
      ghost var was := ordered;
      var j := i + 1;
      while j < n
        invariant i < j <= n && |ordered| == n
        invariant Exchanged(ordered, i, j) == Exchanged(was, i, i + 1)
      {
        if ordered[j].index > ordered[i].index {
          ordered := ordered[i := ordered[j]][j := ordered[i]];
        }
        j := j + 1;
      }
      i := i + 1;
    }
  }

  /** Up to i the edits are in place: descending, and none that follows belongs further up. */
  predicate InPlace(s: seq<Edit>, i: nat) {
    forall p, q :: 0 <= p < i && p < q < |s| ==> s[p].index >= s[q].index
  }

  lemma SwapInPlace(s: seq<Edit>, i: nat, j: nat)
    requires i < j < |s| && InPlace(s, i) && s[j].index > s[i].index
    requires forall q :: i < q < j ==> s[i].index >= s[q].index
    ensures var t := Swap(s, i, j); InPlace(t, i) && forall q :: i < q < j + 1 ==> t[i].index >= t[q].index
  {
    var t := Swap(s, i, j);
    forall p, q | 0 <= p < i && p < q < |t| ensures t[p].index >= t[q].index {
      assert t[p] == s[p] && (t[q] == s[q] || t[q] == s[i] || t[q] == s[j]);
    }
  }

  lemma {:induction false} ExchangedFacts(s: seq<Edit>, i: nat, j: nat)
    requires i < |s| && i < j && InPlace(s, i)
    requires forall q :: i < q < j && q < |s| ==> s[i].index >= s[q].index
    ensures multiset(Exchanged(s, i, j)) == multiset(s) && InPlace(Exchanged(s, i, j), i + 1)
    decreases |s| - j
  {
    if j >= |s| {
    } else if s[j].index > s[i].index {
      hide Swap, InPlace;
      SwapInPlace(s, i, j);
      ExchangedFacts(Swap(s, i, j), i, j + 1);
    } else {
      hide Swap, InPlace;
      ExchangedFacts(s, i, j + 1);
    }
  }

  lemma {:induction false} SortedFromFacts(s: seq<Edit>, i: nat)
    requires i <= |s| && InPlace(s, i)
    ensures multiset(SortedFrom(s, i)) == multiset(s) && Descending(SortedFrom(s, i))
    decreases |s| - i
  {
    if i == |s| {
    } else {
      ExchangedFacts(s, i, i + 1);
      SortedFromFacts(Exchanged(s, i, i + 1), i + 1);
    }
  }

  lemma SortedFacts(edits: seq<Edit>)
    ensures multiset(Sorted(edits)) == multiset(edits) && Descending(Sorted(edits))
    ensures forall e :: e in Sorted(edits) <==> e in edits
  {
    SortedFromFacts(edits, 0);
    SameMembers(Sorted(edits), edits);
  }

  lemma SameMembers(a: seq<Edit>, b: seq<Edit>)
    requires multiset(a) == multiset(b)
    ensures forall e :: e in a <==> e in b
  {
    forall e: Edit ensures e in a <==> e in b {
      assert e in a <==> e in multiset(a);
    }
  }

  /** The sort is not stable: two edits of one index can change places. */
  lemma SortUnstable(a: Edit, b: Edit, c: Edit)
    requires a.index == b.index < c.index
    ensures Sorted([a, b, c]) == [c, b, a]
  {
    var s, t := [a, b, c], [c, b, a];
    assert Swap(s, 0, 2) == t;
    assert Exchanged(s, 0, 2) == Exchanged(t, 0, 3) == t;
    assert Exchanged(s, 0, 1) == t;
    assert Exchanged(t, 1, 2) == Exchanged(t, 1, 3) == t;
    assert Exchanged(t, 2, 3) == t;
    assert SortedFrom(t, 2) == SortedFrom(t, 3) == t;
    assert SortedFrom(t, 1) == t;
  }

  lemma {:induction false} DescendingUnique(s: seq<Edit>, t: seq<Edit>)
    requires Descending(s) && Descending(t) && Distinct(s) && multiset(s) == multiset(t)
    ensures s == t
    decreases |s|
  {
    assert |s| == |multiset(s)| == |multiset(t)| == |t|;
    if s == [] {
    } else {
      SameHead(s, t);
      HeadSplit(s);
      HeadSplit(t);
      TailsKeep(s, t);
      hide Descending, Distinct;
      DescendingUnique(s[1..], t[1..]);
    }
  }

  lemma SameHead(s: seq<Edit>, t: seq<Edit>)
    requires Descending(s) && Descending(t) && Distinct(s) && multiset(s) == multiset(t) && s != [] && t != []
    ensures s[0] == t[0]
  {
    SameMembers(s, t);
    assert s[0] in t && t[0] in s;
    var i :| 0 <= i < |s| && s[i] == t[0];
    var j :| 0 <= j < |t| && t[j] == s[0];
    assert s[0].index >= s[i].index && t[0].index >= t[j].index;
    assert i == 0;
  }

  lemma TailsKeep(s: seq<Edit>, t: seq<Edit>)
    requires Descending(s) && Descending(t) && Distinct(s) && s != [] && t != []
    ensures Descending(s[1..]) && Descending(t[1..]) && Distinct(s[1..])
  {
  }

  lemma SortTwo(e: Edit, f: Edit)
    requires e.index == f.index
    ensures Sorted([e, f]) == [e, f]
  {
    var s := [e, f];
    assert Exchanged(s, 0, 1) == Exchanged(s, 0, 2) == s;
    assert Exchanged(s, 1, 2) == s;
    assert SortedFrom(s, 1) == SortedFrom(s, 2) == s;
  }

  lemma HeadSplit(s: seq<Edit>)
    requires s != []
    ensures s == [s[0]] + s[1..] && multiset(s[1..]) == multiset(s) - multiset{s[0]}
  {
    assert s == [s[0]] + s[1..];
  }

  lemma DistinctPermuted(a: seq<Edit>, b: seq<Edit>)
    requires Distinct(a) && multiset(a) == multiset(b)
    ensures Distinct(b)
  {
    forall i, j | 0 <= i < j < |b| ensures b[i].index != b[j].index {
      if b[i].index == b[j].index {
        SameMembers(a, b);
        assert b[i] in a && b[j] in a;
        var p :| 0 <= p < |a| && a[p] == b[i];
        var q :| 0 <= q < |a| && a[q] == b[j];
        assert p == q;
        TwiceInMultiset(b, i, j);
        OnceInMultiset(a, p);
      }
    }
  }

  lemma TwiceInMultiset(b: seq<Edit>, i: nat, j: nat)
    requires i < j < |b| && b[i] == b[j]
    ensures multiset(b)[b[i]] >= 2
  {
    var x := b[i];
    assert b == b[..i] + [x] + b[i + 1..];
    var y := b[i + 1..];
    assert y[j - i - 1] == x;
    assert x in multiset(y);
  }

  lemma OnceInMultiset(a: seq<Edit>, p: nat)
    requires p < |a| && Distinct(a)
    ensures multiset(a)[a[p]] == 1
  {
    var x := a[p];
    assert a == a[..p] + [x] + a[p + 1..];
    assert x !in multiset(a[..p]) && x !in multiset(a[p + 1..]);
  }

  /** The order in which edits of different indices are given does not matter. */
  lemma OrderIrrelevant(a: seq<Edit>, b: seq<Edit>)
    requires Distinct(a) && multiset(a) == multiset(b)
    ensures Sorted(a) == Sorted(b)
  {
    SortedFacts(a);
    SortedFacts(b);
    DistinctPermuted(a, Sorted(a));
    DescendingUnique(Sorted(a), Sorted(b));
  }

  // ------------------------------------------------------------------- splicing

  predicate Extent(s: string, p: Para) {
    Reaches(s, p) && p.end <= |s|
  }

  /** What rewriting a paragraph slices lies in the text; the end of the closing tag need not. */
  predicate Reaches(s: string, p: Para) {
    if p.selfClosed then p.start <= p.end <= |s|
    else p.start <= p.openEnd && p.openEnd + |CLOSE_P| <= p.end && p.end - |CLOSE_P| <= |s|
  }

  /** Paragraph p of s, rewritten in place. */
  function Rendered(s: string, p: Para, text: string): string
    requires Reaches(s, p)
  {
    if p.selfClosed then TrimTag(s[p.start..p.end]) + ">" + Runs(text, "") + CLOSE_P
    else s[p.start..p.openEnd] + NewInner(s[p.openEnd..p.end - |CLOSE_P|], text) + CLOSE_P
  }

  method RewriteParagraph(s: string, p: Para, text: string) returns (r: Option<string>)
    requires Reaches(s, p)
    ensures r == if !p.selfClosed && HasNonText(s[p.openEnd..p.end - |CLOSE_P|]) then None else Some(Rendered(s, p, text))
  {
    hide HasNonText, PPr, RPr, Runs;
    if p.selfClosed {
      var open := TrimTag(s[p.start..p.end]) + ">";
      var runs := BuildRuns(text, "");
      return Some(open + runs + CLOSE_P);
    }
    var inner := s[p.openEnd..p.end - |CLOSE_P|];
    if HasNonText(inner) {
      return None;
    }
    var pPr := PPr(inner);
    var rPr := RPr(inner);
    var runs := BuildRuns(text, rPr);
    Assoc(s[p.start..p.openEnd], pPr, runs);
    return Some(s[p.start..p.openEnd] + pPr + runs + CLOSE_P);
  }

  /** The paragraph inserted next to p: its formatting is cloned, whatever else it holds. */
  method CloneParagraph(s: string, p: Para, text: string) returns (r: string)
    requires Reaches(s, p)
    ensures r == Rendered(s, p, text)
  {
    hide PPr, RPr, Runs;
    if p.selfClosed {
      var open := TrimTag(s[p.start..p.end]) + ">";
      var runs := BuildRuns(text, "");
      r := open + runs + CLOSE_P;
    } else {
      var open := s[p.start..p.openEnd];
      var inner := s[p.openEnd..p.end - |CLOSE_P|];
      var runs := BuildRuns(text, RPr(inner));
      Assoc(open, PPr(inner), runs);
      r := open + PPr(inner) + runs + CLOSE_P;
    }
  }

  /** At its own extent in s a paragraph renders as its rewritten piece. */
  lemma RenderedIs(doc: string, s: string, a: string, p: Piece, z: string, text: string)
    requires s == a + (PieceText(p) + z)
    ensures var q := ParaFor(doc, p, |a|);
      && Extent(s, q)
      && q.start == |a| && q.end == |a| + |PieceText(p)| && q.selfClosed == p.Closed?
      && (p.Full? ==> s[q.openEnd..q.end - |CLOSE_P|] == p.inner)
      && Rendered(s, q, text) == PieceText(Rewrite(p, text))
  {
    match p
    case Closed(tag) => ClosedRenders(doc, s, a, tag, z, text);
    case Full(open, inner) => FullRenders(doc, s, a, open, inner, z, text);
  }

  lemma ClosedRenders(doc: string, s: string, a: string, tag: string, z: string, text: string)
    requires s == a + (tag + z)
    ensures var q := ParaFor(doc, Closed(tag), |a|);
      && Extent(s, q)
      && q.start == |a| && q.end == |a| + |tag| && q.selfClosed
      && Rendered(s, q, text) == PieceText(Rewrite(Closed(tag), text))
  {
    hide InTable, Runs, TrimTag;
    MidSlice(a, tag + z, 0, |tag|);
    assert (tag + z)[0..|tag|] == tag;
    Assoc(TrimTag(tag) + ">", Runs(text, ""), CLOSE_P);
  }

  lemma FullRenders(doc: string, s: string, a: string, open: string, inner: string, z: string, text: string)
    requires s == a + (PieceText(Full(open, inner)) + z)
    ensures var q := ParaFor(doc, Full(open, inner), |a|);
      && Extent(s, q)
      && q.start == |a| && q.end == |a| + |PieceText(Full(open, inner))| && !q.selfClosed
      && s[q.openEnd..q.end - |CLOSE_P|] == inner
      && Rendered(s, q, text) == PieceText(Rewrite(Full(open, inner), text))
  {
    hide InTable, NewInner, ParaFor;
    FullExtent(doc, Full(open, inner), |a|);
    FullText(open, inner, z);
    FullSlices(a, open, inner, CLOSE_P + z);
    Assoc(open, NewInner(inner, text), CLOSE_P);
  }

  lemma FullSlices(a: string, open: string, inner: string, z: string)
    ensures var s := a + (open + (inner + z));
      s[|a|..|a| + |open|] == open && s[|a| + |open|..|a| + |open| + |inner|] == inner
  {
  }

  lemma SpliceIs(s: string, a: string, p: string, z: string, x: string)
    requires s == a + (p + z)
    ensures s[..|a|] + x + s[|a| + |p|..] == a + (x + z)
    ensures s[..|a| + |p|] + x + s[|a| + |p|..] == a + ((p + x) + z)
    ensures s[..|a|] + s[|a| + |p|..] == a + z
    ensures s[..|a|] + x + s[|a|..] == a + (x + (p + z))
  {
    assert s[..|a|] == a && s[|a| + |p|..] == z && s[|a|..] == p + z && s[..|a| + |p|] == a + p;
    Assoc(a, x, z);
    Assoc(a, x, p + z);
    Assoc(a, p, x);
    Assoc(a, p + x, z);
  }

  // --------------------------------------------------- extents and paragraph list

  lemma {:induction false} ExtentAt(doc: string, d: Doc, base: nat, k: nat)
    requires k < Size(d)
    ensures |Extents(doc, d, base)| == Size(d)
    ensures Extents(doc, d, base)[k] == ParaFor(doc, PieceAt(d, k), base + |Before(d, k)|)
  {
    hide ParaFor, PieceText;
    ExtentsLength(doc, d, base);
    if k == 0 {
    } else {
      ExtentAt(doc, d.rest, base + |d.gap| + |PieceText(d.piece)|, k - 1);
    }
  }

  lemma {:induction false} ExtentsLength(doc: string, d: Doc, base: nat)
    ensures |Extents(doc, d, base)| == Size(d)
  {
    hide ParaFor, PieceText;
    match d
    case Tail(_) =>
    case Seg(gap, piece, rest) => ExtentsLength(doc, rest, base + |gap| + |PieceText(piece)|);
  }

  // ------------------------------------------------------------------- the loop

  /** One edit of the text s, at an extent found in the unedited document, whatever s holds there by now. */
  function EditOnce(s: string, paras: seq<Para>, e: Edit): Result<string, Error> {
    if e.op == SET then
      if e.index < 0 || e.index >= |paras| then Failure(NoSuchParagraph(e.op, e.index))
      else
        var p := paras[e.index];
        if !Reaches(s, p) then Failure(OutOfRange(e.index))
        else if !p.selfClosed && HasNonText(s[p.openEnd..p.end - |CLOSE_P|]) then Failure(NonTextContent(e.index))
        else if p.end > |s| then Failure(OutOfRange(e.index))
        else Success(s[..p.start] + Rendered(s, p, e.text) + s[p.end..])
    else if e.op == INSERT then
      if Target(e) >= |paras| then Failure(NoSuchParagraph(e.op, e.index))
      else
        var p := paras[Target(e)];
        var at := if e.index < 0 then p.start else p.end;
        if !Reaches(s, p) || at > |s| then Failure(OutOfRange(e.index))
        else Success(s[..at] + Rendered(s, p, e.text) + s[at..])
    else if e.op == DELETE then
      if e.index < 0 || e.index >= |paras| then Failure(NoSuchParagraph(e.op, e.index))
      else
        var p := paras[e.index];
        if !(p.start <= p.end <= |s|) then Failure(OutOfRange(e.index)) else Success(s[..p.start] + s[p.end..])
    else Failure(UnknownOp(e.op))
  }

  /** The edits one after the other; the first failure ends the call. */
  function Execute(doc: string, paras: seq<Para>, es: seq<Edit>): Result<string, Error> {
    if es == [] then Success(doc)
    else
      match Execute(doc, paras, es[..|es| - 1])
      case Failure(error) => Failure(error)
      case Success(s) => EditOnce(s, paras, es[|es| - 1])
  }

  method ApplyEdit(s: string, paras: seq<Para>, e: Edit) returns (r: Result<string, Error>)
    ensures r == EditOnce(s, paras, e)
  {
    hide Rendered, HasNonText;
    Ops();
    if e.op == SET {
      if e.index < 0 || e.index >= |paras| {
        return Failure(NoSuchParagraph(e.op, e.index));
      }
      var p := paras[e.index];
      if !Reaches(s, p) {
        return Failure(OutOfRange(e.index));
      }
      var nx := RewriteParagraph(s, p, e.text);
      if nx == None {
        return Failure(NonTextContent(e.index));
      }
      if p.end > |s| {
        return Failure(OutOfRange(e.index));
      }
      return Success(s[..p.start] + nx.value + s[p.end..]);
    } else if e.op == INSERT {
      var src := if e.index < 0 then 0 else e.index;
      if |paras| == 0 || src >= |paras| {
        return Failure(NoSuchParagraph(e.op, e.index));
      }
      var p := paras[src];
      if !Reaches(s, p) {
        return Failure(OutOfRange(e.index));
      }
      var np := CloneParagraph(s, p, e.text);
      var at := if e.index < 0 then p.start else p.end;
      if at > |s| {
        return Failure(OutOfRange(e.index));
      }
      return Success(s[..at] + np + s[at..]);
    } else if e.op == DELETE {
      if e.index < 0 || e.index >= |paras| {
        return Failure(NoSuchParagraph(e.op, e.index));
      }
      var p := paras[e.index];
      if !(p.start <= p.end <= |s|) {
        return Failure(OutOfRange(e.index));
      }
      return Success(s[..p.start] + s[p.end..]);
    } else {
      return Failure(UnknownOp(e.op));
    }
  }

  /** What the patcher does to a document, for any edits. */
  function Patched(doc: string, edits: seq<Edit>): Result<string, Error> {
    Execute(doc, Extents(doc, Segment(doc), 0), Sorted(edits))
  }

  method Apply(doc: string, edits: seq<Edit>) returns (r: Result<string, Error>)
    ensures r == Patched(doc, edits)
  {
    hide EditOnce, Sorted, Extents, Segment;
    if edits == [] {
      assert Sorted([]) == [] by { SortNothing(); }
      return Success(doc);
    }
    var s := doc;
    var paras := ScanParas(s);
    var ordered := SortBottomUp(edits);
    assert ordered[..0] == [];
    var m := 0;
    while m < |ordered|
      invariant 0 <= m <= |ordered|
      invariant Execute(doc, paras, ordered[..m]) == Success(s)
    {
      ExecuteStep(doc, paras, ordered, m);
      var step := ApplyEdit(s, paras, ordered[m]);
      if step.Failure? {
        ExecuteStops(doc, paras, ordered, m + 1);
        return Failure(step.error);
      }
      s := step.value;
      m := m + 1;
    }
    assert ordered[..m] == ordered;
    return Success(s);
  }

  lemma SortNothing()
    ensures Sorted([]) == []
  {
  }

  lemma ExecuteStep(doc: string, paras: seq<Para>, es: seq<Edit>, m: nat)
    requires m < |es|
    ensures Execute(doc, paras, es[..m + 1]) ==
      match Execute(doc, paras, es[..m])
      case Failure(error) => Failure(error)
      case Success(s) => EditOnce(s, paras, es[m])
  {
    hide EditOnce;
    assert es[..m + 1][..m] == es[..m];
  }

  lemma {:induction false} ExecuteStops(doc: string, paras: seq<Para>, es: seq<Edit>, m: nat)
    requires m <= |es| && Execute(doc, paras, es[..m]).Failure?
    ensures Execute(doc, paras, es) == Execute(doc, paras, es[..m])
    decreases |es| - m
  {
    hide Execute;
    if m == |es| {
      assert es[..m] == es;
    } else {
      ExecuteStep(doc, paras, es, m);
      ExecuteStops(doc, paras, es, m + 1);
    }
  }

  lemma ExecuteOne(doc: string, paras: seq<Para>, e: Edit)
    ensures Execute(doc, paras, [e]) == EditOnce(doc, paras, e)
  {
    hide EditOnce;
    assert [e][..0] == [];
  }

  lemma ExecuteSecond(doc: string, paras: seq<Para>, e: Edit, f: Edit)
    ensures Execute(doc, paras, [e, f]) ==
      match Execute(doc, paras, [e])
      case Failure(error) => Failure(error)
      case Success(s) => EditOnce(s, paras, f)
  {
    hide EditOnce;
    assert [e, f][..1] == [e];
  }

  // ------------------------------------------------------ edits that find their paragraph

  /** The piece edits work on stays of the same make, or has become longer than the empty tag it was. */
  lemma {:induction false} LeadMake(p: Piece, es: seq<Edit>)
    ensures var lead := CellOf(p, es).lead;
      lead.Some? && lead.value != p ==> lead.value.Full? && lead.value.open == if p.Full? then p.open else TrimTag(p.tag) + ">"
    ensures var lead := CellOf(p, es).lead;
      lead.Some? && lead.value != p && p.Closed? ==> |PieceText(lead.value)| > |PieceText(p)|
  {
    hide PPr, RPr, TrimTag, PieceText;
    if es == [] {
    } else {
      LeadMake(p, es[..|es| - 1]);
      var c := CellOf(p, es[..|es| - 1]);
      if c.lead.Some? { RewriteMake(p, c.lead.value, es[|es| - 1].text); }
    }
  }

  lemma RewriteMake(p: Piece, lead: Piece, text: string)
    requires lead == p || (lead.Full? && lead.open == if p.Full? then p.open else TrimTag(p.tag) + ">")
    ensures var x := Rewrite(lead, text);
      x.Full? && x.open == (if p.Full? then p.open else TrimTag(p.tag) + ">") && (p.Closed? ==> |PieceText(x)| > |PieceText(p)|)
  {
    hide PPr, RPr;
    RunsLong(text, "");
    if lead.Full? { RunsLong(text, RPr(lead.inner)); }
  }

  lemma RunsLong(text: string, rPr: string)
    ensures |Runs(text, rPr)| >= 11
  {
    hide Body;
  }

  lemma SameExtent(doc: string, p: Piece, x: Piece, start: nat)
    requires |PieceText(x)| == |PieceText(p)|
    requires x == p || (x.Full? && p.Full? && x.open == p.open)
    ensures ParaFor(doc, x, start) == ParaFor(doc, p, start)
  {
    hide InTable;
  }

  /** Where the lead fits, the extent of the unedited paragraph is that of the lead. */
  lemma Located(doc: string, d: Doc, s: string, x: Piece, z: string, k: nat, text: string)
    requires k < Size(d) && s == Before(d, k) + (PieceText(x) + z)
    requires |PieceText(x)| == |PieceText(PieceAt(d, k))|
    requires x == PieceAt(d, k) || (x.Full? && PieceAt(d, k).Full? && x.open == PieceAt(d, k).open)
    ensures k < |Extents(doc, d, 0)|
    ensures var a, q := Before(d, k), Extents(doc, d, 0)[k];
      && Extent(s, q)
      && q.start == |a| && q.end == |a| + |PieceText(x)| && q.selfClosed == x.Closed?
      && (x.Full? ==> s[q.openEnd..q.end - |CLOSE_P|] == x.inner)
      && Rendered(s, q, text) == PieceText(Rewrite(x, text))
  {
    hide PieceText, Rewrite, Extents, Rendered, Extent, ParaFor;
    ExtentAt(doc, d, 0, k);
    SameExtent(doc, PieceAt(d, k), x, |Before(d, k)|);
    RenderedIs(doc, s, Before(d, k), x, z, text);
  }

  lemma LeadText(c: Cell<Piece>, z: string)
    requires c.lead.Some?
    ensures CellText(c) + z == PieceText(c.lead.value) + (PiecesText(c.tail) + z)
  {
    hide PieceText, PiecesText;
    Assoc(PieceText(c.lead.value), PiecesText(c.tail), z);
  }

  lemma AppliedText(c: Cell<Piece>, e: Edit, z: string)
    requires c.lead.Some?
    ensures var x, r := PieceText(c.lead.value), PieceText(Rewrite(c.lead.value, e.text));
      var rest := PiecesText(c.tail) + z;
      CellText(Applied(c, e)) + z ==
        if e.op == SET then r + rest
        else if e.op == INSERT then if e.index < 0 then r + (x + rest) else x + (r + rest)
        else if e.op == DELETE then rest
        else x + rest
  {
    hide PieceText, Rewrite;
    Ops();
    var x, r, t := PieceText(c.lead.value), PieceText(Rewrite(c.lead.value, e.text)), PiecesText(c.tail);
    LeadText(c, z);
    if e.op == SET {
      LeadText(Applied(c, e), z);
    } else if e.op == INSERT {
      LeadText(Applied(c, e), z);
      assert ([if e.index < 0 then c.lead.value else Rewrite(c.lead.value, e.text)] + c.tail)[1..] == c.tail;
      Assoc(if e.index < 0 then x else r, t, z);
    } else if e.op == DELETE {
      assert "" + t == t;
    }
  }

  /** The operations and indices that the patcher looks at. */
  predicate Addressed(d: Doc, e: Edit) {
    Target(e) < Size(d) && (e.op == INSERT || (e.index >= 0 && (e.op == SET || e.op == DELETE)))
  }

  predicate Takes(p: Piece, e: Edit) {
    e.op == SET ==> !(p.Full? && HasNonText(p.inner))
  }

  /** One edit at an extent that holds the text x and renders it as r. */
  lemma EditAtExtent(s: string, paras: seq<Para>, e: Edit, a: string, x: string, rest: string, r: string)
    requires Target(e) < |paras| && (e.op == INSERT || (e.index >= 0 && (e.op == SET || e.op == DELETE)))
    requires s == a + (x + rest)
    requires var q := paras[Target(e)]; Extent(s, q) && q.start == |a| && q.end == |a| + |x| && Rendered(s, q, e.text) == r
    ensures var q := paras[Target(e)];
      EditOnce(s, paras, e) ==
        if e.op == SET && !q.selfClosed && HasNonText(s[q.openEnd..q.end - |CLOSE_P|]) then Failure(NonTextContent(e.index))
        else Success(a + if e.op == SET then r + rest
                         else if e.op == INSERT then if e.index < 0 then r + (x + rest) else x + (r + rest)
                         else rest)
  {
    hide Rendered, HasNonText;
    Ops();
    SpliceIs(s, a, x, rest, r);
    Assoc(x, r, rest);
  }

  /** An edit that finds its paragraph where it was is an edit of the list. */
  lemma SettledStep(doc: string, d: Doc, done: seq<Edit>, e: Edit)
    requires Addressed(d, e) && (forall f :: f in done ==> Target(f) >= Target(e)) && Settled(d, done, e)
    ensures var x := CellOf(PieceAt(d, Target(e)), EditsOf(done, Target(e))).lead.value;
      var r := EditOnce(Text(EditDoc(d, done)), Extents(doc, d, 0), e);
      (r.Success? <==> Takes(x, e)) && (r.Success? ==> r.value == Text(EditDoc(d, done + [e])))
  {
    hide PieceText, Rewrite, Extents, Rendered, EditDoc, HasNonText, CellText, PiecesText, EditFrom, Applied, CellOf, EditsOf, Before, After, Size, Extent, EditOnce;
    var n := Target(e);
    var p := PieceAt(d, n);
    var c := CellOf(p, EditsOf(done, n));
    var x := c.lead.value;
    var a, z := Before(d, n), Text(EditFrom(After(d, n), done, n + 1));
    var rest := PiecesText(c.tail) + z;
    Ops();
    OneMore(d, done, e);
    LeadMake(p, EditsOf(done, n));
    LeadText(c, z);
    AppliedText(c, e, z);
    var s := Text(EditDoc(d, done));
    ExtentsLength(doc, d, 0);
    Located(doc, d, s, x, rest, n, e.text);
    EditAtExtent(s, Extents(doc, d, 0), e, a, PieceText(x), rest, PieceText(Rewrite(x, e.text)));
  }

  /** At the old extent behind a copy of the paragraph, its clone is rendered once more. */
  lemma CopyRenders(doc: string, s: string, a: string, p: Piece, text: string, ft: string, z: string, again: string)
    requires p.Full? && Tidy(p) && PieceOk(p) && Copies(p, ft)
    requires s == a + (PieceText(Rewrite(p, text)) + (ft + (PieceText(p) + z)))
    ensures var q := ParaFor(doc, p, |a|);
      && Reaches(s, q) && q.start == |a| && !q.selfClosed
      && Rendered(s, q, again) == PieceText(Rewrite(p, again))
  {
    hide Tidy, PieceOk, Copies, PPr, RPr, Runs, InTable, ParaFor;
    var y, n := NewInner(p.inner, text), |p.inner|;
    var w := y + (CLOSE_P + (ft + (PieceText(p) + z)));
    FullExtent(doc, p, |a|);
    CutCopies(p, text, ft, z);
    assert s == a + (p.open + w) by { CopyText4(p.open, y, CLOSE_P, ft + (PieceText(p) + z)); }
    CopySlices(a, p.open, w, n);
    hide NewInner;
    assert NewInner(w[..n], again) == NewInner(p.inner, again) by { SameProps(w[..n], p.inner, again); }
    Assoc(p.open, NewInner(p.inner, again), CLOSE_P);
  }

  lemma SameProps(x: string, y: string, text: string)
    requires PPr(x) == PPr(y) && RPr(x) == RPr(y)
    ensures NewInner(x, text) == NewInner(y, text)
  {
    hide PPr, RPr, Runs;
  }

  lemma CopyText4(open: string, y: string, c: string, z: string)
    ensures (open + (y + c)) + z == open + (y + (c + z))
  {
    Assoc(open, y + c, z);
    Assoc(y, c, z);
  }

  lemma CopySlices(a: string, open: string, w: string, n: nat)
    requires n <= |w|
    ensures var s := a + (open + w);
      |a| + |open| + n <= |s| && s[|a|..|a| + |open|] == open && s[|a| + |open|..|a| + |open| + n] == w[..n]
  {
  }

  /** One more insertion in front of a tidy paragraph is that edit of the list, though the paragraph has moved. */
  lemma FrontStep(doc: string, d: Doc, done: seq<Edit>, e: Edit)
    requires Target(e) < Size(d) && ReadsFront(d, done, e) && !Settled(d, done, e)
    ensures EditOnce(Text(EditDoc(d, done)), Extents(doc, d, 0), e) == Success(Text(EditDoc(d, done + [e])))
  {
    hide PieceText, Rewrite, Extents, Rendered, EditDoc, HasNonText, CellText, PiecesText, EditFrom, Applied, CellOf, EditsOf, Before, After, Size, Tidy, Copies, PieceOk, Reaches;
    Ops();
    var p := PieceAt(d, 0);
    var c := CellOf(p, EditsOf(done, 0));
    var text, ft, rest := CopiesStack(p, EditsOf(done, 0));
    var a, z := Before(d, 0), Text(EditFrom(After(d, 0), done, 1));
    OneMore(d, done, e);
    LeadText(c, z);
    AppliedText(c, e, z);
    RewriteTwice(p, text, e.text);
    assert PiecesText(c.tail) + z == ft + (PieceText(p) + (rest + z)) by { CopyText4(ft, PieceText(p), rest, z); }
    var s := Text(EditDoc(d, done));
    var x := PieceText(Rewrite(p, text));
    ExtentAt(doc, d, 0, 0);
    CopyRenders(doc, s, a, p, text, ft, rest + z, e.text);
    SpliceIs(s, a, x, PiecesText(c.tail) + z, PieceText(Rewrite(p, e.text)));
  }

  /** An edit that works is an edit of the list, refused for a set over non-text content only. */
  lemma WorkingStep(doc: string, d: Doc, done: seq<Edit>, e: Edit)
    requires Addressed(d, e) && (forall f :: f in done ==> Target(f) >= Target(e) && Valid(d, f) && f.index >= e.index)
    requires Target(e) < Size(d) && Works(d, done, e)
    ensures var r := EditOnce(Text(EditDoc(d, done)), Extents(doc, d, 0), e);
      (r.Success? <==> Valid(d, e)) && (r.Success? ==> r.value == Text(EditDoc(d, done + [e])))
  {
    hide EditOnce, Extents, EditDoc, ReadsFront, Takes, Settled, CellOf, EditsOf;
    if Settled(d, done, e) {
      SettledStep(doc, d, done, e);
      AcceptsStatic(d, done, e);
    } else {
      FrontStep(doc, d, done, e);
      FrontValid(d, done, e);
    }
  }

  lemma FrontValid(d: Doc, done: seq<Edit>, e: Edit)
    requires Target(e) < Size(d) && ReadsFront(d, done, e)
    ensures Valid(d, e)
  {
    hide Tidy, PieceOk;
    Ops();
  }

  lemma RewriteTextOnly(p: Piece, text: string)
    requires !(p.Full? && HasNonText(p.inner))
    ensures !HasNonText(Rewrite(p, text).inner)
  {
    hide Contains, Foreign, Runs, PPr, RPr;
    MarkersForeign();
    match p
    case Closed(_) =>
      forall m | m in MARKERS ensures !Contains(Runs(text, ""), m) {
        EmptySilent(m);
        SilentRuns(text, "", m);
      }
    case Full(_, inner) =>
      forall m | m in MARKERS ensures !Contains(NewInner(inner, text), m) {
        KeptSilent(inner, m);
        NewInnerSilent(inner, text, m);
      }
  }

  lemma EmptySilent(p: string)
    requires Foreign(p)
    ensures Silent("", p)
  {
    hide Contains;
    assert TagPattern(p);
    SilentPlain("", p);
  }

  /** Accepted edits neither bring non-text content in nor take it away. */
  lemma {:induction false} NonTextKept(p: Piece, es: seq<Edit>)
    requires forall e :: e in es ==> e.index >= 0 && Takes(p, e)
    ensures var lead := CellOf(p, es).lead;
      lead.Some? ==> ((lead.value.Full? && HasNonText(lead.value.inner)) <==> (p.Full? && HasNonText(p.inner)))
  {
    hide HasNonText, Rewrite;
    Ops();
    if es == [] {
    } else {
      var init, last := es[..|es| - 1], es[|es| - 1];
      assert es == init + [last];
      NonTextKept(p, init);
      var c := CellOf(p, init);
      if c.lead.Some? && last.op == SET { RewriteTextOnly(c.lead.value, last.text); }
    }
  }

  lemma AcceptsStatic(d: Doc, done: seq<Edit>, e: Edit)
    requires Addressed(d, e) && Settled(d, done, e)
    requires forall f :: f in done ==> Valid(d, f) && f.index >= e.index
    ensures Takes(CellOf(PieceAt(d, Target(e)), EditsOf(done, Target(e))).lead.value, e) <==> Valid(d, e)
  {
    hide HasNonText, PieceText, CellOf, EditsOf;
    Ops();
    if e.op == SET {
      EditsOfMembers(done, Target(e));
      NonTextKept(PieceAt(d, Target(e)), EditsOf(done, Target(e)));
    }
  }

  lemma NotAddressed(doc: string, d: Doc, s: string, e: Edit)
    requires !Addressed(d, e)
    ensures EditOnce(s, Extents(doc, d, 0), e).Failure? && !Valid(d, e)
  {
    hide Extents, HasNonText, Rendered, Size, PieceAt;
    Ops();
    ExtentsLength(doc, d, 0);
  }

  /**
   * Edits that work: the patcher fails exactly when one of them cannot be made, and otherwise leaves the text of the
   * document edited in one pass.
   */
  lemma {:induction false} WorkingExecutes(doc: string, es: seq<Edit>)
    requires Descending(es) && AllWork(Segment(doc), es)
    ensures var d := Segment(doc);
      var r := Execute(doc, Extents(doc, d, 0), es);
      && (r.Success? <==> forall e :: e in es ==> Valid(d, e))
      && (r.Success? ==> r.value == Text(EditDoc(d, es)))
    decreases |es|
  {
    hide Segment, Extents, EditOnce, EditDoc, Valid, Works;
    var d := Segment(doc);
    if es == [] {
      NoEdits(d, 0);
      SegmentKeepsText(doc);
      EditDocIs(d, []);
    } else {
      var init, last := es[..|es| - 1], es[|es| - 1];
      assert es == init + [last];
      WorkingPrefix(d, es);
      WorkingExecutes(doc, init);
      LastStep(doc, d, es);
    }
  }

  lemma EditDocIs(d: Doc, es: seq<Edit>)
    ensures EditDoc(d, es) == EditFrom(d, es, 0)
  {
  }

  lemma WorkingPrefix(d: Doc, es: seq<Edit>)
    requires es != [] && AllWork(d, es)
    ensures AllWork(d, es[..|es| - 1])
    ensures Target(es[|es| - 1]) < Size(d) ==> Works(d, es[..|es| - 1], es[|es| - 1])
  {
    hide Works;
    var init := es[..|es| - 1];
    forall m | 0 <= m < |init| && Target(init[m]) < Size(d) ensures Works(d, init[..m], init[m]) {
      assert init[..m] == es[..m] && init[m] == es[m];
    }
  }

  lemma LastStep(doc: string, d: Doc, es: seq<Edit>)
    requires es != [] && Descending(es)
    requires var init, last := es[..|es| - 1], es[|es| - 1];
      var r := Execute(doc, Extents(doc, d, 0), init);
      && (Target(last) < Size(d) ==> Works(d, init, last))
      && (r.Success? <==> forall e :: e in init ==> Valid(d, e))
      && (r.Success? ==> r.value == Text(EditDoc(d, init)))
    ensures var r := Execute(doc, Extents(doc, d, 0), es);
      && (r.Success? <==> forall e :: e in es ==> Valid(d, e))
      && (r.Success? ==> r.value == Text(EditDoc(d, es)))
  {
    hide Extents, EditOnce, EditDoc, Valid, Works, Addressed, Takes;
    var init, last := es[..|es| - 1], es[|es| - 1];
    assert es == init + [last];
    if Execute(doc, Extents(doc, d, 0), init).Success? {
      if Addressed(d, last) {
        assert Target(last) < Size(d) by { AddressedTarget(d, last); }
        forall f | f in init ensures f.index >= last.index && Target(f) >= Target(last) {
          var i :| 0 <= i < |init| && init[i] == f;
          assert es[i] == f;
        }
        WorkingStep(doc, d, init, last);
      } else {
        NotAddressed(doc, d, Text(EditDoc(d, init)), last);
      }
    }
  }

  lemma AddressedTarget(d: Doc, e: Edit)
    requires Addressed(d, e)
    ensures Target(e) < Size(d)
  {
  }

  lemma {:induction false} NoEdits(d: Doc, k: nat)
    ensures EditFrom(d, [], k) == d
  {
    match d
    case Tail(_) =>
    case Seg(_, _, rest) => NoEdits(rest, k + 1);
  }

  /** The promise of the patcher, for edits each of which works where the earlier ones have left the document. */
  lemma AppliesEdits(doc: string, edits: seq<Edit>)
    requires AllWork(Segment(doc), Sorted(edits))
    ensures var d := Segment(doc);
      var r := Patched(doc, edits);
      && (r.Success? <==> forall e :: e in edits ==> Valid(d, e))
      && (r.Success? ==> r.value == Text(EditDoc(d, Sorted(edits))))
  {
    hide Segment, Extents, EditDoc, Valid, Sorted, Execute;
    SortedFacts(edits);
    WorkingExecutes(doc, Sorted(edits));
  }

  // ------------------------------------------------------------ edits at a stale extent

  /** At extent q the text s has the piece that edits of the paragraph work on. */
  predicate Holds(s: string, q: Para, c: Cell<Piece>) {
    c.lead.Some? && q.start <= q.end <= |s| && s[q.start..q.end] == PieceText(c.lead.value)
  }

  /** An edit finds its paragraph at the extent it uses if and only if the paragraph is still as long as it was. */
  lemma StaleExtent(doc: string, d: Doc, done: seq<Edit>, e: Edit)
    requires Target(e) < Size(d) && forall f :: f in done ==> Target(f) >= Target(e)
    ensures |Extents(doc, d, 0)| == Size(d)
    ensures Holds(Text(EditDoc(d, done)), Extents(doc, d, 0)[Target(e)], CellOf(PieceAt(d, Target(e)), EditsOf(done, Target(e))))
       <==> Settled(d, done, e)
  {
    hide PieceText, Extents, EditDoc, CellText, PiecesText, EditFrom, CellOf, EditsOf, Before, After, Size;
    var n := Target(e);
    var p := PieceAt(d, n);
    var c := CellOf(p, EditsOf(done, n));
    var a, z := Before(d, n), Text(EditFrom(After(d, n), done, n + 1));
    OneMore(d, done, e);
    ExtentsLength(doc, d, 0);
    ExtentAt(doc, d, 0, n);
    ParaForSpan(doc, p, |a|);
    if c.lead.Some? {
      LeadText(c, z);
      LeadSlice(a, PieceText(c.lead.value), PiecesText(c.tail) + z);
    }
  }

  lemma ParaForSpan(doc: string, p: Piece, start: nat)
    ensures ParaFor(doc, p, start).start == start && ParaFor(doc, p, start).end == start + |PieceText(p)|
  {
    hide InTable;
    if p.Full? { FullExtent(doc, p, start); }
  }

  lemma LeadSlice(a: string, x: string, z: string)
    ensures (a + (x + z))[|a|..|a| + |x|] == x
  {
  }

  /** A deletion takes away exactly its paragraph if and only if it finds it where it was. */
  lemma StaleDeletion(doc: string, d: Doc, done: seq<Edit>, e: Edit)
    requires Shaped(d) && e.op == DELETE && 0 <= e.index < Size(d) && forall f :: f in done ==> Target(f) >= Target(e)
    ensures EditOnce(Text(EditDoc(d, done)), Extents(doc, d, 0), e) == Success(Text(EditDoc(d, done + [e])))
       <==> Settled(d, done, e)
  {
    hide PieceText, Extents, EditDoc, PiecesText, EditFrom, CellOf, EditsOf, Before, After, Size, Rendered, HasNonText;
    Ops();
    var n := Target(e);
    var p := PieceAt(d, n);
    var c := CellOf(p, EditsOf(done, n));
    if Settled(d, done, e) {
      SettledStep(doc, d, done, e);
    } else {
      OneMore(d, done, e);
      ExtentsLength(doc, d, 0);
      ExtentAt(doc, d, 0, n);
      ParaForSpan(doc, p, |Before(d, n)|);
      PieceNotEmpty(d, n);
    }
  }

  lemma {:induction false} PieceNotEmpty(d: Doc, n: nat)
    requires Shaped(d) && n < Size(d)
    ensures |PieceText(PieceAt(d, n))| > 0
  {
    if n == 0 {
    } else {
      PieceNotEmpty(d.rest, n - 1);
    }
  }
}
