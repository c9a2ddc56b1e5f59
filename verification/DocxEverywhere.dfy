/** Which edits the patcher makes rightly in every document. */
module DocxEverywhere {
  import opened Prelude
  import opened Strings
  import opened Markup
  import opened DocxText
  import opened DocxScan
  import opened DocxParas
  import opened DocxParts
  import opened DocxStyle
  import opened DocxProps
  import opened DocxEdits
  import opened DocxFront
  import opened DocxApply
  import opened DocxPromise

  /** The document has a place for every edit, but the patched text is not the edited list. */
  ghost predicate Betrays(doc: string, edits: seq<Edit>) {
    && (forall e :: e in edits ==> Valid(Segment(doc), e))
    && Patched(doc, edits) != Success(Text(EditDoc(Segment(doc), Sorted(edits))))
  }

  /** Operations and indices for which some document has a place. */
  predicate Placeable(edits: seq<Edit>) {
    forall e :: e in edits ==> e.op == INSERT || (e.index >= 0 && (e.op == SET || e.op == DELETE))
  }

  // ----------------------------------------------------------------------- the documents

  function Letters(k: nat): string {
    if k == 0 then "" else "a" + Letters(k - 1)
  }

  lemma {:induction false} LettersAre(k: nat)
    ensures |Letters(k)| == k && forall i :: 0 <= i < k ==> Letters(k)[i] == 'a'
  {
    if k == 0 {
    } else {
      LettersAre(k - 1);
    }
  }

  /** n empty tags, a paragraph of k letters, and m empty tags. */
  function Long(n: nat, k: nat, m: nat): Doc {
    if n == 0 then Seg("", Full("<w:p>", Letters(k)), Blank(m)) else Seg("", Closed("<w:p/>"), Long(n - 1, k, m))
  }

  lemma PlainPiece(k: nat)
    ensures PieceOk(Full("<w:p>", Letters(k))) && !HasNonText(Letters(k))
    ensures PPr(Letters(k)) == "" && RPr(Letters(k)) == ""
  {
    LettersAre(k);
    var s := Letters(k);
    forall p | p == CLOSE_P || p in MARKERS ensures !Contains(s, p) { LettersLack(s, p); }
    NoLt(s);
    assert "<w:p>"[0..5] == "<w:p>";
  }

  lemma LettersLack(s: string, p: string)
    requires (forall i :: 0 <= i < |s| ==> s[i] == 'a') && (p == CLOSE_P || p in MARKERS)
    ensures !Contains(s, p)
  {
    hide Foreign;
    MarkersForeign();
    StructureForeign();
    ForeignIsPattern(p);
    SilentPlain(s, p);
  }

  lemma {:induction false} NoLt(s: string)
    requires forall i :: 0 <= i < |s| ==> s[i] == 'a'
    ensures PPr(s) == "" && RPr(s) == ""
  {
    hide PPr, RPr, Starts;
    forall i: int, name: string ensures !Starts(s, name, i) { NoLtStarts(s, name, i); }
    NoStartNoElement(s, PARA_PROPS);
    PPrNone(s);
    forall i: nat | i < |s| ensures RunPrAt(s[i..]) == None { NoTagNoProps(s, i); }
    RPrNone(s);
  }

  lemma NoLtStarts(s: string, name: string, i: int)
    requires forall j :: 0 <= j < |s| ==> s[j] == 'a'
    ensures !Starts(s, name, i)
  {
    forall p | p == Opener(name) || p == OpenerSpaced(name) || p == SelfCloser(name) ensures !At(s, p, i) {
      if At(s, p, i) { AtChars(s, p, i, 0); }
    }
  }

  lemma PPrNone(s: string)
    requires ElementAt(s, PARA_PROPS) == None
    ensures PPr(s) == ""
  {
  }
  /** n empty paragraphs and nothing else. */
  function Blank(n: nat): Doc {
    if n == 0 then Tail("") else Seg("", Closed("<w:p/>"), Blank(n - 1))
  }

  lemma {:induction false} BlankIs(n: nat, k: nat)
    requires k < n
    ensures Size(Blank(n)) == n && PieceAt(Blank(n), k) == Closed("<w:p/>")
    decreases n
  {
    if k == 0 {
      BlankSize(n - 1);
    } else {
      BlankIs(n - 1, k - 1);
    }
  }

  lemma {:induction false} BlankSize(n: nat)
    ensures Size(Blank(n)) == n
  {
    if n == 0 {
    } else {
      BlankSize(n - 1);
    }
  }

  function Bound(es: seq<Edit>): nat {
    if es == [] then 0 else var b := Bound(es[..|es| - 1]); if Target(es[|es| - 1]) >= b then Target(es[|es| - 1]) + 1 else b
  }

  lemma {:induction false} BoundIs(es: seq<Edit>)
    ensures forall e :: e in es ==> Target(e) < Bound(es)
  {
    if es == [] {
    } else {
      BoundIs(es[..|es| - 1]);
      assert es == es[..|es| - 1] + [es[|es| - 1]];
    }
  }

  lemma {:induction false} BlankShaped(m: nat)
    ensures Shaped(Blank(m)) && GapsWhole(Blank(m))
  {
    hide FirstPara, PieceOk, NoPOpen, TagWhole;
    EmptyTagOpened();
    BareNothing();
    NothingScanned();
    if m == 0 {
    } else {
      BlankShaped(m - 1);
    }
  }

  lemma NothingScanned()
    ensures FirstPara("") == None && NoPOpen("")
  {
    forall i: int ensures !POpen("", i) {
      if POpen("", i) { POpenChar("", i); }
    }
  }

  lemma {:induction false} LongIs(n: nat, k: nat, m: nat)
    ensures var d := Long(n, k, m);
      && Size(d) == n + 1 + m && PieceAt(d, n) == Full("<w:p>", Letters(k)) && After(d, n) == Blank(m)
      && Shaped(d) && GapsWhole(d)
    ensures forall i :: 0 <= i < n + 1 + m && i != n ==> PieceAt(Long(n, k, m), i) == Closed("<w:p/>")
  {
    hide FirstPara, PieceOk, NoPOpen, TagWhole, HasNonText;
    BareNothing();
    NothingScanned();
    EmptyTagOpened();
    if n == 0 {
      PlainPiece(k);
      BlankSize(m);
      BlankShaped(m);
      forall i | 0 <= i < m ensures PieceAt(Blank(m), i) == Closed("<w:p/>") { BlankIs(m, i); }
    } else {
      LongIs(n - 1, k, m);
    }
  }

  /** In these documents there is a place for every edit. */
  lemma AllValid(d: Doc, edits: seq<Edit>)
    requires Placeable(edits) && (forall e :: e in edits ==> Target(e) < Size(d))
    requires forall i :: 0 <= i < Size(d) ==> PieceAt(d, i) == Closed("<w:p/>") || exists k :: PieceAt(d, i) == Full("<w:p>", Letters(k))
    ensures forall e :: e in edits ==> Valid(d, e)
  {
    hide HasNonText, Letters;
    Ops();
    forall e | e in edits ensures Valid(d, e) {
      if e.op == SET && PieceAt(d, e.index).Full? {
        var k :| PieceAt(d, e.index) == Full("<w:p>", Letters(k));
        PlainPiece(k);
      }
    }
  }

  // ------------------------------------------------------------------ the first bad edit

  predicate BadPair(es: seq<Edit>, i: nat, j: nat) {
    i < j < |es| && Target(es[i]) == Target(es[j]) && !InsertsAfter(es[i])
  }

  lemma {:induction false} FirstBad(es: seq<Edit>) returns (i: nat, j: nat)
    requires !Undisturbed(es)
    ensures BadPair(es, i, j) && Undisturbed(es[..j])
  {
    var init := es[..|es| - 1];
    if !Undisturbed(init) {
      i, j := FirstBad(init);
      assert init[..j] == es[..j];
    } else {
      var a, b :| 0 <= a < b < |es| && Target(es[a]) == Target(es[b]) && !InsertsAfter(es[a]);
      assert es[..b] == init[..b];
      i, j := a, b;
    }
  }

  /** Before the first bad edit, its paragraph has had insertions behind it and, last, the edit that disturbs it. */
  lemma Disturber(es: seq<Edit>, i: nat, j: nat)
    requires BadPair(es, i, j) && Undisturbed(es[..j])
    ensures var r := EditsOf(es[..j], Target(es[j]));
      r != [] && r[|r| - 1] == es[i] && forall x :: 0 <= x < |r| - 1 ==> InsertsAfter(r[x])
  {
    var n := Target(es[j]);
    var r := EditsOf(es[..j], n);
    InsertionsFirst(es[..j], n);
    EditsOfMembers(es[..j], n);
    assert es[..j][i] == es[i] && es[i] in es[..j];
    assert es[i] in r;
    var x :| 0 <= x < |r| && r[x] == es[i];
    assert x == |r| - 1;
  }

  /** The prefix before the first bad edit is made rightly. */
  lemma PrefixWorks(doc: string, es: seq<Edit>, j: nat)
    requires Descending(es) && j <= |es| && Undisturbed(es[..j]) && forall e :: e in es ==> Valid(Segment(doc), e)
    ensures Execute(doc, Extents(doc, Segment(doc), 0), es[..j]) == Success(Text(EditDoc(Segment(doc), es[..j])))
  {
    hide Segment, Execute, Extents, EditDoc, Valid, Steady, AllWork, Undisturbed;
    UndisturbedSteady(Segment(doc), es[..j]);
    SteadyWorks(Segment(doc), es[..j]);
    assert forall e :: e in es[..j] ==> e in es;
    WorkingExecutes(doc, es[..j]);
  }

  // ----------------------------------------------------------- after a set or a deletion

  lemma SameRewrite(k: nat, text: string)
    ensures Rewrite(Full("<w:p>", Letters(k)), text) == Rewrite(Full("<w:p>", ""), text)
  {
    hide Runs, PPr, RPr;
    PlainPiece(k);
    PlainPiece(0);
  }

  /** What a set or a deletion leaves does not depend on how long the paragraph was. */
  lemma SameCell(es: seq<Edit>, k: nat)
    requires es != [] && (es[|es| - 1].op == SET || es[|es| - 1].op == DELETE)
    requires forall x :: 0 <= x < |es| - 1 ==> InsertsAfter(es[x])
    ensures CellOf(Full("<w:p>", Letters(k)), es) == CellOf(Full("<w:p>", ""), es)
  {
    hide Rewrite, Letters;
    Ops();
    var init, e := es[..|es| - 1], es[|es| - 1];
    forall f | f in init ensures f.op == INSERT && f.index >= 0 {
      var x :| 0 <= x < |init| && init[x] == f;
      assert es[x] == f;
    }
    var p, q := Full("<w:p>", Letters(k)), Full("<w:p>", "");
    InsertionsStack(p, init);
    InsertionsStack(q, init);
    var a, b := CellOf(p, init).tail, CellOf(q, init).tail;
    forall x | 0 <= x < |init| ensures a[x] == b[x] { SameRewrite(k, init[|init| - 1 - x].text); }
    assert a == b;
    SameRewrite(k, e.text);
  }

  lemma PastEndFails(s: string, paras: seq<Para>, e: Edit)
    requires Target(e) < |paras| && (e.op == INSERT || e.index >= 0)
    requires var q := paras[Target(e)]; !q.selfClosed && q.end - |CLOSE_P| > |s|
    ensures EditOnce(s, paras, e).Failure?
  {
    hide Rendered, HasNonText;
    Ops();
  }

  /** A paragraph longer than all that the earlier edits have left of it and behind it: the next edit runs off the text. */
  lemma DisturbedFails(edits: seq<Edit>, i: nat, j: nat) returns (doc: string)
    requires Placeable(edits) && BadPair(Sorted(edits), i, j) && Undisturbed(Sorted(edits)[..j])
    requires var e := Sorted(edits)[i]; e.op == SET || e.op == DELETE
    ensures Betrays(doc, edits)
  {
    hide Sorted, Extents, EditDoc, EditFrom, EditsOf, CellOf, Letters, Long, Blank, Bound, Before, After, Segment, Text, Valid, Execute, PieceText, CellText, Shaped, GapsWhole, EditOnce, Undisturbed, HasNonText;
    var es := Sorted(edits);
    var n := Target(es[j]);
    var done := es[..j];
    var m := Bound(es) - n - 1;
    SortedFacts(edits);
    BoundIs(es);
    assert es[j] in es;
    Disturber(es, i, j);
    var r := EditsOf(done, n);
    var k := |CellText(CellOf(Full("<w:p>", ""), r))| + |Text(EditFrom(Blank(m), done, n + 1))|;
    var d := Long(n, k, m);
    LongIs(n, k, m);
    doc := Text(d);
    SegmentOfText(d);
    LongFits(d, n, k, m, es, edits);
    PrefixWorks(doc, es, j);
    SameCell(r, k);
    TextAroundIs(d, done, es[j]);
    LettersAre(k);
    ExtentAt(doc, d, 0, n);
    LongExtent(doc, k, |Before(d, n)|);
    PastEndFails(Text(EditDoc(d, done)), Extents(doc, d, 0), es[j]);
    FailsAt(doc, es, j);
  }

  lemma LongFits(d: Doc, n: nat, k: nat, m: nat, es: seq<Edit>, edits: seq<Edit>)
    requires d == Long(n, k, m) && Placeable(edits) && (forall e :: e in es <==> e in edits) && forall e :: e in es ==> Target(e) < n + 1 + m
    ensures forall e :: e in edits ==> Valid(d, e)
    ensures forall e :: e in es ==> Valid(d, e)
  {
    hide Long, Letters, Valid, Shaped, GapsWhole;
    LongIs(n, k, m);
    AllValid(d, edits);
  }

  lemma TextAroundIs(d: Doc, done: seq<Edit>, e: Edit)
    requires Target(e) < Size(d) && forall f :: f in done ==> Target(f) >= Target(e)
    ensures Text(EditDoc(d, done)) == Before(d, Target(e))
      + (CellText(CellOf(PieceAt(d, Target(e)), EditsOf(done, Target(e)))) + Text(EditFrom(After(d, Target(e)), done, Target(e) + 1)))
  {
    hide CellText, CellOf, EditsOf, Before, After, EditFrom;
    OneMore(d, done, e);
  }

  lemma LongExtent(doc: string, k: nat, start: nat)
    ensures var q := ParaFor(doc, Full("<w:p>", Letters(k)), start);
      !q.selfClosed && q.end == start + 5 + |Letters(k)| + |CLOSE_P|
  {
    hide InTable, Letters;
    FullExtent(doc, Full("<w:p>", Letters(k)), start);
  }

  lemma FailsAt(doc: string, es: seq<Edit>, j: nat)
    requires j < |es|
    requires Execute(doc, Extents(doc, Segment(doc), 0), es[..j]).Success?
    requires EditOnce(Execute(doc, Extents(doc, Segment(doc), 0), es[..j]).value, Extents(doc, Segment(doc), 0), es[j]).Failure?
    ensures Execute(doc, Extents(doc, Segment(doc), 0), es).Failure?
  {
    hide Execute, Extents, Segment, EditOnce;
    ExecuteStep(doc, Extents(doc, Segment(doc), 0), es, j);
    ExecuteStops(doc, Extents(doc, Segment(doc), 0), es, j + 1);
  }

  // ------------------------------------------------------------ after an insertion in front

  lemma BlankFits(es: seq<Edit>, edits: seq<Edit>)
    requires Placeable(edits) && forall e :: e in es <==> e in edits
    ensures var d := Blank(Bound(es));
      && Size(d) == Bound(es) && Shaped(d) && GapsWhole(d)
      && (forall e :: e in es ==> Target(e) < Size(d))
      && (forall e :: e in edits ==> Valid(d, e)) && forall e :: e in es ==> Valid(d, e)
  {
    hide Valid, Shaped, GapsWhole, Blank, Bound;
    BoundIs(es);
    BlankSize(Bound(es));
    BlankShaped(Bound(es));
    forall i | 0 <= i < Bound(es) ensures PieceAt(Blank(Bound(es)), i) == Closed("<w:p/>") { BlankIs(Bound(es), i); }
    AllValid(Blank(Bound(es)), edits);
  }

  /** The copy that the first insertion in front leaves, behind insertions only. */
  lemma CopyLeads(es: seq<Edit>)
    requires es != [] && Front(es[|es| - 1]) && forall x :: 0 <= x < |es| - 1 ==> InsertsAfter(es[x])
    ensures CellOf(Closed("<w:p/>"), es).lead == Some(Rewrite(Closed("<w:p/>"), es[|es| - 1].text))
  {
    hide Rewrite;
    Ops();
    var init := es[..|es| - 1];
    forall f | f in init ensures f.op == INSERT && f.index >= 0 {
      var x :| 0 <= x < |init| && init[x] == f;
      assert es[x] == f;
    }
    InsertionsStack(Closed("<w:p/>"), init);
  }

  /** In front of an empty tag the next insertion leaves two characters too many, and so does every later one. */
  lemma FrontFails(edits: seq<Edit>, i: nat, j: nat) returns (doc: string)
    requires Placeable(edits) && BadPair(Sorted(edits), i, j) && Undisturbed(Sorted(edits)[..j]) && Front(Sorted(edits)[i])
    ensures Betrays(doc, edits)
  {
    hide Sorted, Extents, EditDoc, EditFrom, EditsOf, CellOf, Blank, Bound, Before, Segment, Text, Valid, Execute, Rewrite, EditOnce, Undisturbed, Shaped, GapsWhole, Opened;
    var es := Sorted(edits);
    var d := Blank(Bound(es));
    SortedFacts(edits);
    BlankFits(es, edits);
    doc := Text(d);
    SegmentOfText(d);
    assert es[j] in es && es[i] in es;
    BlankIs(Bound(es), 0);
    FrontsFrom(es, edits, i, j);
    Disturber(es, i, j);
    var r := EditsOf(es[..j], 0);
    CopyLeads(r);
    NextIsFront(es, i, j);
    PrefixWorks(doc, es, j);
    EmptyTagOpened();
    var y := EmptyFronts(doc, d, es, "<w:p/>", j, |es|);
    assert es[..|es|] == es;
  }

  /** Edits are made in descending order, so that behind an insertion in front there are only such insertions. */
  lemma FrontsFrom(es: seq<Edit>, edits: seq<Edit>, i: nat, j: nat)
    requires Descending(es) && Placeable(edits) && (forall e :: e in es <==> e in edits) && i < j < |es| && Front(es[i])
    ensures forall m :: i <= m < |es| ==> Front(es[m])
    ensures Target(es[j]) == 0
  {
    forall m | i <= m < |es| ensures Front(es[m]) { assert es[m] in es; }
  }

  lemma NextIsFront(es: seq<Edit>, i: nat, j: nat)
    requires i < j < |es| && Undisturbed(es[..j]) && (forall m :: i <= m < |es| ==> Front(es[m]))
    ensures i == j - 1
  {
    var t := es[..j];
    assert i < j - 1 ==> Target(t[i]) == 0 && Target(t[i + 1]) == 0 && !InsertsAfter(t[i]);
  }

  // -------------------------------------------------------------------------- the result

  /**
   * Edits for which there can be a place are made rightly in every document that has a place for them if and only if
   * only insertions after a paragraph precede another edit of it.
   */
  lemma AppliesEverywhere(edits: seq<Edit>)
    requires Placeable(edits)
    ensures (forall doc :: !Betrays(doc, edits)) <==> Undisturbed(Sorted(edits))
  {
    hide Sorted, Segment, EditDoc, Text, Valid, Patched, Undisturbed, Steady, AllWork;
    if Undisturbed(Sorted(edits)) {
      forall doc ensures !Betrays(doc, edits) {
        UndisturbedSteady(Segment(doc), Sorted(edits));
        SteadyWorks(Segment(doc), Sorted(edits));
        AppliesEdits(doc, edits);
      }
    } else {
      var doc := Betrayed(edits);
    }
  }

  lemma Betrayed(edits: seq<Edit>) returns (doc: string)
    requires Placeable(edits) && !Undisturbed(Sorted(edits))
    ensures Betrays(doc, edits)
  {
    hide Sorted, Undisturbed, Betrays;
    Ops();
    var i, j := FirstBad(Sorted(edits));
    SortedFacts(edits);
    assert Sorted(edits)[i] in Sorted(edits);
    if Front(Sorted(edits)[i]) {
      doc := FrontFails(edits, i, j);
    } else {
      doc := DisturbedFails(edits, i, j);
    }
  }
}
