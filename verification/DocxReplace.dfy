/** Search and replace, and edits that meet each other. */
module DocxReplace {
  import opened Prelude
  import opened Strings
  import opened DocxText
  import opened DocxScan
  import opened DocxParas
  import opened DocxParts
  import opened DocxEdits
  import opened DocxFront
  import opened DocxApply
  import opened DocxExtract
  import opened DocxListEdit

  /** Every occurrence of what, from the left and without overlap. */
  function ReplaceAll(s: string, what: string, repl: string): string
    requires what != ""
    decreases |s|
  {
    match IndexOf(s, what, 0)
    case None => s
    case Some(i) => s[..i] + repl + ReplaceAll(s[i + |what|..], what, repl)
  }

  function JoinAll(parts: seq<string>, between: string): string {
    if parts == [] then "" else if |parts| == 1 then parts[0] else parts[0] + between + JoinAll(parts[1..], between)
  }

  /** Where the text is cut: no occurrence begins before the cut, and none is left in the last part. */
  ghost predicate CutLeftmost(parts: seq<string>, what: string) {
    && parts != [] && !Contains(parts[|parts| - 1], what)
    && forall i, j: nat :: 0 <= i < |parts| - 1 && j < |parts[i]| ==> !At(JoinAll(parts[i..], what), what, j)
  }

  /** Replacing cuts the text at the leftmost occurrences, one after the other, and joins the parts by the new text. */
  lemma {:induction false} ReplaceAllIs(s: string, what: string, repl: string) returns (parts: seq<string>)
    requires what != ""
    ensures s == JoinAll(parts, what) && CutLeftmost(parts, what) && ReplaceAll(s, what, repl) == JoinAll(parts, repl)
    decreases |s|
  {
    hide At, Contains;
    match IndexOf(s, what, 0)
    case None =>
      parts := [s];
      assert !Contains(s, what) by { LacksAll(s, what); }
    case Some(i) =>
      AtBounds(s, what, i);
      var rest := ReplaceAllIs(s[i + |what|..], what, repl);
      parts := [s[..i]] + rest;
      assert parts[1..] == rest;
      assert s == s[..i] + what + s[i + |what|..] by { CutAround(s, what, i); }
      forall m, j: nat | 0 <= m < |parts| - 1 && j < |parts[m]| ensures !At(JoinAll(parts[m..], what), what, j) {
        if m == 0 { assert parts[0..] == parts; } else { assert parts[m..] == rest[m - 1..]; }
      }
  }

  lemma LacksAll(s: string, what: string)
    requires forall j: int :: 0 <= j ==> !At(s, what, j)
    ensures !Contains(s, what)
  {
  }

  lemma CutAround(s: string, what: string, i: nat)
    requires At(s, what, i)
    ensures s == s[..i] + what + s[i + |what|..]
  {
  }

  predicate Matches(p: Paragraph, what: string) {
    Contains(p.text, what)
  }

  /** The edits a replacement makes; paragraph i of the list is addressed as k + i. */
  function Replacements(ps: seq<Paragraph>, what: string, repl: string, k: nat): seq<Edit>
    requires what != ""
  {
    if ps == [] then []
    else
      (if Matches(ps[0], what) && !ps[0].hasNonText then [Edit(SET, k, ReplaceAll(ps[0].text, what, repl))] else [])
      + Replacements(ps[1..], what, repl, k + 1)
  }

  function Skipped(ps: seq<Paragraph>, what: string): nat {
    if ps == [] then 0 else (if Matches(ps[0], what) && ps[0].hasNonText then 1 else 0) + Skipped(ps[1..], what)
  }

  predicate Counts(p: Paragraph, what: string, other: bool) {
    Contains(p.text, what) && p.hasNonText == other
  }

  /** The matching paragraphs that hold other content, or that do not; paragraph i of the list is number k + i. */
  function Matching(ps: seq<Paragraph>, what: string, other: bool, k: nat): set<nat> {
    set n: nat | k <= n < k + |ps| && CountsAt(ps, what, other, k, n)
  }

  predicate CountsAt(ps: seq<Paragraph>, what: string, other: bool, k: nat, n: nat)
    requires k <= n < k + |ps|
  {
    Counts(ps[n - k], what, other)
  }

  lemma MatchingStep(ps: seq<Paragraph>, what: string, other: bool, k: nat)
    requires ps != []
    ensures |Matching(ps, what, other, k)|
         == (if Counts(ps[0], what, other) then 1 else 0) + |Matching(ps[1..], what, other, k + 1)|
  {
    hide Counts;
    var all, rest := Matching(ps, what, other, k), Matching(ps[1..], what, other, k + 1);
    forall n: nat ensures n in all <==> (n == k && Counts(ps[0], what, other)) || n in rest {
      if k < n < k + |ps| { assert ps[n - k] == ps[1..][n - (k + 1)]; }
    }
    assert k !in rest;
    assert all == if Counts(ps[0], what, other) then {k} + rest else rest;
  }

  /** One edit for each matching paragraph of text only, and one count for each other matching paragraph. */
  lemma {:induction false} CountsAre(ps: seq<Paragraph>, what: string, repl: string, k: nat)
    requires what != ""
    ensures |Replacements(ps, what, repl, k)| == |Matching(ps, what, false, k)| && Skipped(ps, what) == |Matching(ps, what, true, k)|
  {
    hide Contains, ReplaceAll, Matching;
    if ps == [] {
      NoneMatching(what, k);
    } else {
      CountsAre(ps[1..], what, repl, k + 1);
      MatchingStep(ps, what, false, k);
      MatchingStep(ps, what, true, k);
    }
  }

  lemma NoneMatching(what: string, k: nat)
    ensures Matching([], what, true, k) == {} && Matching([], what, false, k) == {}
  {
  }

  function Replaced(p: Paragraph, what: string, repl: string): Paragraph
    requires what != ""
  {
    if Matches(p, what) && !p.hasNonText then p.(text := ReplaceAll(p.text, what, repl)) else p
  }

  lemma {:induction false} ReplacementFacts(ps: seq<Paragraph>, what: string, repl: string, k: nat)
    requires what != ""
    ensures forall e :: e in Replacements(ps, what, repl, k) ==>
              e.op == SET && k <= e.index < k + |ps| && !ps[e.index - k].hasNonText
    ensures Distinct(Replacements(ps, what, repl, k))
  {
    hide ReplaceAll, Matches;
    if ps == [] {
    } else {
      var rest := Replacements(ps[1..], what, repl, k + 1);
      ReplacementFacts(ps[1..], what, repl, k + 1);
      forall e | e in rest ensures e.op == SET && k < e.index < k + |ps| && !ps[e.index - k].hasNonText {
        assert ps[1..][e.index - (k + 1)] == ps[e.index - k];
      }
    }
  }

  /** At most one of the edits works at paragraph k. */
  lemma {:induction false} SingleEdit(es: seq<Edit>, k: nat)
    requires Distinct(es) && forall e :: e in es ==> e.index >= 0
    ensures |EditsOf(es, k)| <= 1
  {
    if es == [] {
    } else {
      var init, last := es[..|es| - 1], es[|es| - 1];
      assert es == init + [last];
      SingleEdit(init, k);
      if Target(last) == k {
        forall e | e in init ensures Target(e) != k {
          var i :| 0 <= i < |init| && init[i] == e;
          assert es[i] == e && es[i].index != es[|es| - 1].index;
        }
        NoneOf(init, k);
      }
    }
  }

  lemma SameEdits(a: seq<Edit>, b: seq<Edit>, k: nat)
    requires Distinct(a) && Distinct(b) && (forall e :: e in a ==> e.index >= 0) && forall e :: e in a <==> e in b
    ensures EditsOf(a, k) == EditsOf(b, k)
  {
    hide Distinct, EditsOf;
    SingleEdit(a, k);
    SingleEdit(b, k);
    EditsOfMembers(a, k);
    EditsOfMembers(b, k);
    var x, y := EditsOf(a, k), EditsOf(b, k);
    if x != [] { assert x[0] in x; assert x[0] in y; }
    if y != [] { assert y[0] in y; assert y[0] in x; }
  }

  lemma {:induction false} SameDoc(d: Doc, a: seq<Edit>, b: seq<Edit>, k: nat)
    requires forall i: nat :: EditsOf(a, i) == EditsOf(b, i)
    ensures EditFrom(d, a, k) == EditFrom(d, b, k)
  {
    hide CellDoc, CellOf, EditsOf;
    match d
    case Tail(_) =>
    case Seg(_, _, rest) => SameDoc(rest, a, b, k + 1);
  }

  lemma {:induction false} SameList(ps: seq<Paragraph>, a: seq<Edit>, b: seq<Edit>, k: nat)
    requires forall i: nat :: EditsOf(a, i) == EditsOf(b, i)
    ensures ListEdit(ps, a, k) == ListEdit(ps, b, k)
  {
    hide EditsOf, ReadCell, Row;
    if ps == [] {
    } else {
      SameList(ps[1..], a, b, k + 1);
    }
  }

  /** Edits of different paragraphs make the same document and the same list in the order in which they are given. */
  lemma DistinctAnyOrder(d: Doc, ps: seq<Paragraph>, es: seq<Edit>)
    requires Distinct(es) && forall e :: e in es ==> e.index >= 0
    ensures EditDoc(d, Sorted(es)) == EditDoc(d, es) && ListEdit(ps, Sorted(es), 0) == ListEdit(ps, es, 0)
    ensures Undisturbed(Sorted(es))
  {
    hide Distinct, Sorted, EditsOf, EditFrom, ListEdit;
    SortedFacts(es);
    DistinctPermuted(es, Sorted(es));
    forall i: nat ensures EditsOf(Sorted(es), i) == EditsOf(es, i) { SameEdits(Sorted(es), es, i); }
    SameDoc(d, Sorted(es), es, 0);
    SameList(ps, Sorted(es), es, 0);
    DistinctUndisturbed(Sorted(es));
  }

  lemma DistinctUndisturbed(es: seq<Edit>)
    requires Distinct(es) && forall e :: e in es ==> e.index >= 0
    ensures Undisturbed(es)
  {
  }

  lemma {:induction false} ConsEdits(e: Edit, es: seq<Edit>, k: nat)
    ensures EditsOf([e] + es, k) == (if Target(e) == k then [e] else []) + EditsOf(es, k)
  {
    if es == [] {
      assert [e] + es == [e] && [e][..0] == [];
    } else {
      var init, last := es[..|es| - 1], es[|es| - 1];
      ConsEdits(e, init, k);
      assert ([e] + es)[..|es|] == [e] + init;
    }
  }

  /** An edit above paragraph k does not show in the list from k on. */
  lemma {:induction false} DropBefore(ps: seq<Paragraph>, e: Edit, es: seq<Edit>, k: nat)
    requires Target(e) < k
    ensures ListEdit(ps, [e] + es, k) == ListEdit(ps, es, k)
  {
    hide ReadCell, Row, EditsOf;
    if ps == [] {
    } else {
      ConsEdits(e, es, k);
      assert [] + EditsOf(es, k) == EditsOf(es, k);
      DropBefore(ps[1..], e, es, k + 1);
    }
  }

  lemma ReplacementAt(ps: seq<Paragraph>, what: string, repl: string, k: nat)
    requires what != "" && ps != []
    ensures var es := Replacements(ps, what, repl, k);
      && Row(ReadCell(ps[0], EditsOf(es, k))) == [Replaced(ps[0], what, repl)]
      && ListEdit(ps[1..], es, k + 1) == ListEdit(ps[1..], Replacements(ps[1..], what, repl, k + 1), k + 1)
  {
    hide ReplaceAll, Matches, EditsOf, ListEdit, Replacements;
    var rest := Replacements(ps[1..], what, repl, k + 1);
    ReplacementFacts(ps[1..], what, repl, k + 1);
    NoneOf(rest, k);
    ReplacementsStep(ps, what, repl, k);
    if Matches(ps[0], what) && !ps[0].hasNonText {
      var e := Edit(SET, k, ReplaceAll(ps[0].text, what, repl));
      ConsEdits(e, rest, k);
      assert [e] + [] == [e];
      assert [e][..0] == [];
      DropBefore(ps[1..], e, rest, k + 1);
    } else {
      assert [] + rest == rest;
    }
  }

  lemma ReplacementsStep(ps: seq<Paragraph>, what: string, repl: string, k: nat)
    requires what != "" && ps != []
    ensures Replacements(ps, what, repl, k)
      == (if Matches(ps[0], what) && !ps[0].hasNonText then [Edit(SET, k, ReplaceAll(ps[0].text, what, repl))] else [])
       + Replacements(ps[1..], what, repl, k + 1)
  {
  }

  /** Read back, a replacement changes the text of exactly the matching paragraphs it may touch. */
  lemma {:induction false} ReplaceReads(ps: seq<Paragraph>, what: string, repl: string, k: nat)
    requires what != ""
    ensures |ListEdit(ps, Replacements(ps, what, repl, k), k)| == |ps|
    ensures forall i :: 0 <= i < |ps| ==> ListEdit(ps, Replacements(ps, what, repl, k), k)[i] == Replaced(ps[i], what, repl)
  {
    hide ReplaceAll, Matches, Replaced, Replacements, Row, ReadCell;
    if ps == [] {
    } else {
      ReplaceReads(ps[1..], what, repl, k + 1);
      ReplacementAt(ps, what, repl, k);
      ConsAll(ps, ListEdit(ps[1..], Replacements(ps[1..], what, repl, k + 1), k + 1), what, repl);
    }
  }

  lemma ConsAll(ps: seq<Paragraph>, rest: seq<Paragraph>, what: string, repl: string)
    requires what != "" && ps != [] && |rest| == |ps| - 1
    requires forall i :: 0 <= i < |rest| ==> rest[i] == Replaced(ps[1..][i], what, repl)
    ensures var r := [Replaced(ps[0], what, repl)] + rest;
      |r| == |ps| && forall i :: 0 <= i < |ps| ==> r[i] == Replaced(ps[i], what, repl)
  {
    hide Replaced;
    var r := [Replaced(ps[0], what, repl)] + rest;
    forall i | 0 <= i < |ps| ensures r[i] == Replaced(ps[i], what, repl) {
      if i > 0 { assert ps[1..][i - 1] == ps[i]; }
    }
  }

  lemma ReplacementsValid(doc: string, what: string, repl: string)
    requires what != ""
    ensures var es := Replacements(Listing(Segment(doc), 0), what, repl, 0);
      Distinct(es) && forall e :: e in es ==> e.op == SET && e.index >= 0 && Valid(Segment(doc), e)
  {
    hide Segment, Listing, ReplaceAll, Matches, Replacements, Depth, Extents, Described, Extent, PieceAt, HasNonText, Distinct;
    var d := Segment(doc);
    var ps := Listing(d, 0);
    var es := Replacements(ps, what, repl, 0);
    ReplacementFacts(ps, what, repl, 0);
    ListingLength(d, 0);
    forall e | e in es ensures Valid(d, e) {
      ListedParagraph(doc, e.index);
      NotDescribedNonText(PieceAt(d, e.index), Extents(doc, d, 0)[e.index].inTable);
    }
  }

  lemma ReplacementsApply(doc: string, what: string, repl: string)
    requires what != ""
    ensures var es := Replacements(Listing(Segment(doc), 0), what, repl, 0);
      Patched(doc, es) == Success(Text(EditDoc(Segment(doc), es)))
  {
    hide Segment, Listing, Replacements, EditDoc, Text, Valid, Distinct, Sorted, Patched, Steady, AllWork, Undisturbed, ListEdit;
    var d := Segment(doc);
    var es := Replacements(Listing(d, 0), what, repl, 0);
    ReplacementsValid(doc, what, repl);
    DistinctAnyOrder(d, [], es);
    UndisturbedSteady(d, Sorted(es));
    SteadyWorks(d, Sorted(es));
    AppliesEdits(doc, es);
  }

  /**
   * Reading the document after a replacement: as many paragraphs as before, with every occurrence replaced in exactly
   * the matching paragraphs of text only, when those are regular and the gaps hold whole tags.
   */
  lemma ReplaceThenExtract(doc: string, what: string, repl: string)
    requires what != "" && GapsWhole(Segment(doc))
    requires var d := Segment(doc);
      |Listing(d, 0)| == Size(d) &&
      forall i :: 0 <= i < Size(d) && Matches(Listing(d, 0)[i], what) && !Listing(d, 0)[i].hasNonText ==> Regular(PieceAt(d, i))
    ensures
      var ps := Listing(Segment(doc), 0);
      var out := Text(EditDoc(Segment(doc), Replacements(ps, what, repl, 0)));
      var qs := Listing(Segment(out), 0);
      |qs| == |ps| && forall i :: 0 <= i < |ps| ==> qs[i] == Replaced(ps[i], what, repl)
  {
    hide Segment, Listing, Replacements, EditDoc, Text, Valid, Distinct, Sorted, Patched, Steady, AllWork, Undisturbed, ListEdit, Regular, Matches, EditsTame, Replaced;
    var d := Segment(doc);
    var ps := Listing(d, 0);
    var es := Replacements(ps, what, repl, 0);
    ReplacementsValid(doc, what, repl);
    DistinctAnyOrder(d, ps, es);
    SortedFacts(es);
    UndisturbedSteady(d, Sorted(es));
    SteadyWorks(d, Sorted(es));
    ReplacementMatches(ps, what, repl, 0);
    Ops();
    UndisturbedTame(d, Sorted(es));
    ExtractAfterApply(doc, es);
    ReplacementsApply(doc, what, repl);
    ReplaceReads(ps, what, repl, 0);
  }

  lemma {:induction false} ReplacementMatches(ps: seq<Paragraph>, what: string, repl: string, k: nat)
    requires what != ""
    ensures forall e :: e in Replacements(ps, what, repl, k) ==>
      e.op == SET && k <= e.index < k + |ps| && Matches(ps[e.index - k], what) && !ps[e.index - k].hasNonText
  {
    hide ReplaceAll, Matches;
    if ps == [] {
    } else {
      ReplacementMatches(ps[1..], what, repl, k + 1);
      forall e | e in Replacements(ps[1..], what, repl, k + 1)
        ensures e.op == SET && k < e.index < k + |ps| && Matches(ps[e.index - k], what) && !ps[e.index - k].hasNonText
      {
        assert ps[1..][e.index - (k + 1)] == ps[e.index - k];
      }
    }
  }

  lemma NotDescribedNonText(p: Piece, inTable: bool)
    ensures Described(p, inTable).hasNonText == (p.Full? && HasNonText(p.inner))
  {
  }

  /** What looking at paragraph k adds to the edits and to the count of paragraphs that may not be touched. */
  lemma LookedAt(ps: seq<Paragraph>, what: string, repl: string, k: nat, edits: seq<Edit>)
    requires what != "" && k < |ps|
    ensures edits + Replacements(ps[k..], what, repl, k)
      == (if Matches(ps[k], what) && !ps[k].hasNonText then edits + [Edit(SET, k, ReplaceAll(ps[k].text, what, repl))] else edits)
       + Replacements(ps[k + 1..], what, repl, k + 1)
    ensures Skipped(ps[k..], what)
      == (if Matches(ps[k], what) && ps[k].hasNonText then 1 else 0) + Skipped(ps[k + 1..], what)
  {
    hide ReplaceAll, Matches, Replacements;
    assert ps[k..][0] == ps[k] && ps[k..][1..] == ps[k + 1..];
    ReplacementsStep(ps[k..], what, repl, k);
    var rest := Replacements(ps[k + 1..], what, repl, k + 1);
    assert edits + ([] + rest) == edits + rest;
  }

  lemma NoneLeft(ps: seq<Paragraph>, what: string, repl: string, edits: seq<Edit>)
    requires what != ""
    ensures edits + Replacements(ps[|ps|..], what, repl, |ps|) == edits && Skipped(ps[|ps|..], what) == 0
  {
    assert ps[|ps|..] == [];
    assert edits + [] == edits;
  }

  datatype Outcome = Outcome(out: string, changed: nat, skipped: nat)

  /** Replacing never fails on a scanned document: paragraphs it may not touch are counted, not edited. */
  method ReplaceText(doc: string, what: string, repl: string) returns (r: Result<Outcome, string>)
    ensures r.Failure? <==> what == ""
    ensures r.Success? ==>
              var ps := Listing(Segment(doc), 0);
              r.value == Outcome(Text(EditDoc(Segment(doc), Replacements(ps, what, repl, 0))),
                                 |Replacements(ps, what, repl, 0)|, Skipped(ps, what))
  {
    hide Segment, Listing, EditDoc, Text, ReplaceAll, Matches, Replacements, Skipped, Patched, Sorted;
    if what == "" {
      return Failure("empty search text");
    }
    var paras := Extract(doc);
    var edits := [];
    var skipped := 0;
    for k := 0 to |paras|
      invariant Replacements(paras, what, repl, 0) == edits + Replacements(paras[k..], what, repl, k)
      invariant Skipped(paras, what) == skipped + Skipped(paras[k..], what)
    {
      var p := paras[k];
      LookedAt(paras, what, repl, k, edits);
      if !Matches(p, what) {
        continue;
      }
      if p.hasNonText {
        skipped := skipped + 1;
        continue;
      }
      edits := edits + [Edit(SET, k, ReplaceAll(p.text, what, repl))];
    }
    NoneLeft(paras, what, repl, edits);
    ReplacementsApply(doc, what, repl);
    if edits == [] {
      SortNothing();
      NothingPatched(doc);
      return Success(Outcome(doc, 0, skipped));
    }
    var out := Apply(doc, edits);
    return Success(Outcome(out.value, |edits|, skipped));
  }

  lemma NothingPatched(doc: string)
    requires Sorted([]) == []
    ensures Patched(doc, []) == Success(doc)
  {
    hide Extents, Segment, Sorted;
  }

  // ---------------------------------------------------------------- undoing edits

  /** Deleting a paragraph that was just inserted gives back the document, byte for byte. */
  lemma {:induction false} InsertThenDelete(d: Doc, n: nat, text: string, k: nat)
    requires n < Size(d)
    ensures EditFrom(EditFrom(d, [Edit(INSERT, k + n, text)], k), [Edit(DELETE, k + n + 1, "")], k) == d
  {
    hide Rewrite, EditsOf, CellOf;
    Ops();
    var ins, del := Edit(INSERT, k + n, text), Edit(DELETE, k + n + 1, "");
    OneEditOf(ins, k);
    OneEditOf(del, k);
    NoCell(d.piece);
    if n == 0 {
      NothingAfter(d.rest, ins, k + 1);
      NothingAfter(d.rest, del, k + 2);
      OneCell(d.piece, ins);
      InsertedDoc(d.gap, d.piece, Rewrite(d.piece, text), d.rest);
      OneEditOf(del, k + 1);
      OneCell(Rewrite(d.piece, text), del);
      PrependNothing(d.rest);
    } else {
      InsertThenDelete(d.rest, n - 1, text, k + 1);
    }
  }

  lemma InsertedDoc(gap: string, p: Piece, x: Piece, rest: Doc)
    ensures CellDoc(gap, Cell(Some(p), [x] + []), rest) == Seg(gap, p, Seg("", x, rest))
  {
    var t := [x] + [];
    assert t[0] == x && t[1..] == [];
    assert Insertions(t, rest) == Seg("", x, Insertions([], rest));
  }

  lemma PrependNothing(d: Doc)
    ensures Prepend("", d) == d
  {
    match d
    case Tail(gap) => assert "" + gap == gap;
    case Seg(gap, _, _) => assert "" + gap == gap;
  }

  // ------------------------------------------------------- edits at a stale extent

  /**
   * Deleting the same paragraph twice also cuts off as many characters of what follows it as the paragraph had,
   * or runs past the end of the text.
   */
  lemma DeletingTwice(doc: string, k: nat)
    requires k < Size(Segment(doc))
    ensures var d := Segment(doc);
      var n, z := |PieceText(PieceAt(d, k))|, Text(After(d, k));
      Patched(doc, [Edit(DELETE, k, ""), Edit(DELETE, k, "")])
        == if n <= |z| then Success(Before(d, k) + z[n..]) else Failure(OutOfRange(k))
  {
    hide Segment, Extents, PieceAt, Before, After, Text, PieceText, Rendered, Sorted, Execute, HasNonText;
    var d := Segment(doc);
    var a, t, z := Before(d, k), PieceText(PieceAt(d, k)), Text(After(d, k));
    var e := Edit(DELETE, k, "");
    Ops();
    SegmentKeepsText(doc);
    TextParts(d, k);
    ExtentAt(doc, d, 0, k);
    ParaForSpan(doc, PieceAt(d, k), |a|);
    SpliceIs(doc, a, t, z, "");
    SortTwo(e, e);
    ExecuteSecond(doc, Extents(doc, d, 0), e, e);
    ExecuteOne(doc, Extents(doc, d, 0), e);
    assert (a + z)[..|a|] == a;
    if |t| <= |z| { assert (a + z)[|a| + |t|..] == z[|t|..]; }
  }
}
