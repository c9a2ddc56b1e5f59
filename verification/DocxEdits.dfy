/** Edits as a change of the list of paragraphs. */
module DocxEdits {
  import opened Prelude
  import opened Strings
  import opened DocxScan
  import opened DocxParts

  const SET := "set"
  const INSERT := "insert_after"
  const DELETE := "delete"

  datatype Edit = Edit(op: string, index: int, text: string)

  function Size(d: Doc): nat {
    match d
    case Tail(_) => 0
    case Seg(_, _, rest) => 1 + Size(rest)
  }

  function PieceAt(d: Doc, k: nat): Piece
    requires k < Size(d)
  {
    if k == 0 then d.piece else PieceAt(d.rest, k - 1)
  }

  /** Everything after paragraph k. */
  function After(d: Doc, k: nat): Doc
    requires k < Size(d)
  {
    if k == 0 then d.rest else After(d.rest, k - 1)
  }

  /** The text before paragraph k. */
  function Before(d: Doc, k: nat): string
    requires k < Size(d)
  {
    if k == 0 then d.gap else d.gap + (PieceText(d.piece) + Before(d.rest, k - 1))
  }

  /** The paragraph an edit works at: an insertion at a negative index works at the first one. */
  function Target(e: Edit): nat {
    if e.index < 0 then 0 else e.index
  }

  /** An edit the patcher accepts; all others make the whole call fail. */
  predicate Valid(d: Doc, e: Edit) {
    if e.op == SET then
      0 <= e.index < Size(d) && !(PieceAt(d, e.index).Full? && HasNonText(PieceAt(d, e.index).inner))
    else if e.op == INSERT then
      Target(e) < Size(d)
    else
      e.op == DELETE && 0 <= e.index < Size(d)
  }

  lemma Ops()
    ensures INSERT != SET && DELETE != SET && INSERT != DELETE
  {
    assert |INSERT| == 12 && |SET| == 3 && |DELETE| == 6;
  }

  // ------------------------------------------------------------------ one paragraph

  /** What stands where a paragraph stood: first the piece that edits of it work on, then others. */
  datatype Cell<T> = Cell(lead: Option<T>, tail: seq<T>)

  /**
   * A later insertion comes before an earlier one, and an insertion at a negative index comes before the paragraph,
   * so that it is the first piece from then on.
   */
  function Applied(c: Cell<Piece>, e: Edit): Cell<Piece> {
    if c.lead.None? then c
    else
      var p := c.lead.value;
      if e.op == SET then c.(lead := Some(Rewrite(p, e.text)))
      else if e.op == INSERT then
        if e.index < 0 then Cell(Some(Rewrite(p, e.text)), [p] + c.tail)
        else c.(tail := [Rewrite(p, e.text)] + c.tail)
      else if e.op == DELETE then c.(lead := None)
      else c
  }

  /** The edits of one paragraph, in the order in which they are made. */
  function CellOf(p: Piece, es: seq<Edit>): Cell<Piece> {
    if es == [] then Cell(Some(p), []) else Applied(CellOf(p, es[..|es| - 1]), es[|es| - 1])
  }

  /** Those of the edits that work at paragraph k. */
  function EditsOf(es: seq<Edit>, k: nat): seq<Edit> {
    if es == [] then []
    else EditsOf(es[..|es| - 1], k) + if Target(es[|es| - 1]) == k then [es[|es| - 1]] else []
  }

  /** The paragraph still ends where it ended: what stands first is as long as what stood there. */
  predicate Fits(p: Piece, c: Cell<Piece>) {
    c.lead.Some? && |PieceText(c.lead.value)| == |PieceText(p)|
  }

  /** Exactly which edits let the next one find the paragraph where it was. */
  lemma FitsAfter(p: Piece, c: Cell<Piece>, e: Edit)
    requires Fits(p, c)
    ensures Fits(p, Applied(c, e)) <==>
      if e.op == SET || (e.op == INSERT && e.index < 0) then |PieceText(Rewrite(c.lead.value, e.text))| == |PieceText(p)|
      else e.op != DELETE
  {
    hide PieceText, Rewrite;
    Ops();
  }

  /** Insertions after a paragraph leave it alone and stand in the reverse of the order in which they are made. */
  lemma {:induction false} InsertionsStack(p: Piece, es: seq<Edit>)
    requires forall e :: e in es ==> e.op == INSERT && e.index >= 0
    ensures var c := CellOf(p, es);
      && c.lead == Some(p) && |c.tail| == |es|
      && forall i :: 0 <= i < |es| ==> c.tail[i] == Rewrite(p, es[|es| - 1 - i].text)
  {
    hide Rewrite;
    Ops();
    if es == [] {
    } else {
      InsertionsStack(p, es[..|es| - 1]);
    }
  }

  // ------------------------------------------------------------------ the document

  function Insertions(ps: seq<Piece>, rest: Doc): Doc {
    if ps == [] then rest else Seg("", ps[0], Insertions(ps[1..], rest))
  }

  function CellDoc(gap: string, c: Cell<Piece>, rest: Doc): Doc {
    match c.lead
    case Some(p) => Seg(gap, p, Insertions(c.tail, rest))
    case None => Prepend(gap, Insertions(c.tail, rest))
  }

  /** One pass over the document: paragraph k and what the edits of it make of it. */
  function EditFrom(d: Doc, es: seq<Edit>, k: nat): Doc {
    match d
    case Tail(gap) => d
    case Seg(gap, piece, rest) => CellDoc(gap, CellOf(piece, EditsOf(es, k)), EditFrom(rest, es, k + 1))
  }

  /** The edited document, for edits in the order in which they are made. */
  function EditDoc(d: Doc, es: seq<Edit>): Doc {
    EditFrom(d, es, 0)
  }

  function PiecesText(ps: seq<Piece>): string {
    if ps == [] then "" else PieceText(ps[0]) + PiecesText(ps[1..])
  }

  function CellText(c: Cell<Piece>): string {
    (if c.lead.Some? then PieceText(c.lead.value) else "") + PiecesText(c.tail)
  }

  lemma {:induction false} InsertionsText(ps: seq<Piece>, rest: Doc)
    ensures Text(Insertions(ps, rest)) == PiecesText(ps) + Text(rest)
  {
    hide PieceText;
    if ps == [] {
      assert "" + Text(rest) == Text(rest);
    } else {
      InsertionsText(ps[1..], rest);
      var more := PiecesText(ps[1..]) + Text(rest);
      assert "" + (PieceText(ps[0]) + more) == PieceText(ps[0]) + more;
      Assoc(PieceText(ps[0]), PiecesText(ps[1..]), Text(rest));
    }
  }

  lemma PrependText(x: string, d: Doc)
    ensures Text(Prepend(x, d)) == x + Text(d)
  {
    match d
    case Tail(gap) =>
    case Seg(gap, piece, rest) => Assoc(x, gap, PieceText(piece) + Text(rest));
  }

  lemma CellDocText(gap: string, c: Cell<Piece>, rest: Doc)
    ensures Text(CellDoc(gap, c, rest)) == gap + (CellText(c) + Text(rest))
  {
    hide PieceText, PiecesText;
    var tail := Insertions(c.tail, rest);
    InsertionsText(c.tail, rest);
    match c.lead
    case Some(p) => Assoc(PieceText(p), PiecesText(c.tail), Text(rest));
    case None =>
      PrependText(gap, tail);
      assert "" + PiecesText(c.tail) == PiecesText(c.tail);
  }

  lemma Regroup3(a: string, b: string, c: string, z: string)
    ensures a + (b + (c + z)) == (a + (b + c)) + z
  {
    Assoc(b, c, z);
    Assoc(a, b + c, z);
  }

  lemma {:induction false} NoneOf(es: seq<Edit>, k: nat)
    requires forall e :: e in es ==> Target(e) != k
    ensures EditsOf(es, k) == []
  {
    if es == [] {
    } else {
      NoneOf(es[..|es| - 1], k);
    }
  }

  lemma EditsOfSnoc(es: seq<Edit>, e: Edit, k: nat)
    ensures EditsOf(es + [e], k) == EditsOf(es, k) + if Target(e) == k then [e] else []
  {
    assert (es + [e])[..|es|] == es;
  }

  lemma CellOfSnoc(p: Piece, es: seq<Edit>, e: Edit)
    ensures CellOf(p, es + [e]) == Applied(CellOf(p, es), e)
  {
    hide Applied;
    assert (es + [e])[..|es|] == es;
  }

  lemma UntouchedText(p: Piece)
    ensures CellText(CellOf(p, [])) == PieceText(p)
  {
    assert PieceText(p) + "" == PieceText(p);
  }

  /** Edits of paragraph n and of later ones leave the text before paragraph n alone. */
  lemma {:induction false} TextAround(d: Doc, es: seq<Edit>, k: nat, n: nat)
    requires n < Size(d) && forall e :: e in es ==> Target(e) >= k + n
    ensures Text(EditFrom(d, es, k))
         == Before(d, n) + (CellText(CellOf(PieceAt(d, n), EditsOf(es, k + n))) + Text(EditFrom(After(d, n), es, k + n + 1)))
  {
    hide PieceText, CellText, CellDoc, CellOf;
    CellDocText(d.gap, CellOf(d.piece, EditsOf(es, k)), EditFrom(d.rest, es, k + 1));
    if n == 0 {
    } else {
      TextAround(d.rest, es, k + 1, n - 1);
      NoneOf(es, k);
      UntouchedText(d.piece);
      Regroup3(d.gap, PieceText(d.piece), Before(d.rest, n - 1),
        CellText(CellOf(PieceAt(d, n), EditsOf(es, k + n))) + Text(EditFrom(After(d, n), es, k + n + 1)));
    }
  }

  lemma {:induction false} EditAbove(d: Doc, es: seq<Edit>, e: Edit, k: nat)
    requires Target(e) < k
    ensures EditFrom(d, es + [e], k) == EditFrom(d, es, k)
  {
    hide CellDoc, CellOf, EditsOf;
    match d
    case Tail(_) =>
    case Seg(_, _, rest) =>
      EditAbove(rest, es, e, k + 1);
      EditsOfSnoc(es, e, k);
      assert EditsOf(es, k) + [] == EditsOf(es, k);
  }

  /** The document before and after one more edit of paragraph n, with no earlier edit below it. */
  lemma OneMore(d: Doc, done: seq<Edit>, e: Edit)
    requires var n := Target(e); n < Size(d) && forall f :: f in done ==> Target(f) >= n
    ensures
      var n := Target(e);
      var c := CellOf(PieceAt(d, n), EditsOf(done, n));
      var z := Text(EditFrom(After(d, n), done, n + 1));
      && Text(EditDoc(d, done)) == Before(d, n) + (CellText(c) + z)
      && Text(EditDoc(d, done + [e])) == Before(d, n) + (CellText(Applied(c, e)) + z)
  {
    hide PieceText, CellText, EditFrom, EditsOf, CellOf, Applied, Before, After, Size, PieceAt, Text;
    var n := Target(e);
    TextAround(d, done, 0, n);
    TextAround(d, done + [e], 0, n);
    EditsOfSnoc(done, e, n);
    EditAbove(After(d, n), done, e, n + 1);
    CellOfSnoc(PieceAt(d, n), EditsOf(done, n), e);
  }

  // --------------------------------------------------------- who finds its paragraph

  /** Edit e finds its paragraph where it was, after the edits `done`. */
  predicate Settled(d: Doc, done: seq<Edit>, e: Edit)
    requires Target(e) < Size(d)
  {
    Fits(PieceAt(d, Target(e)), CellOf(PieceAt(d, Target(e)), EditsOf(done, Target(e))))
  }

  /** Every edit finds its paragraph where it was; `es` in the order in which the edits are made. */
  ghost predicate Steady(d: Doc, es: seq<Edit>) {
    forall m :: 0 <= m < |es| && Target(es[m]) < Size(d) ==> Settled(d, es[..m], es[m])
  }

  predicate InsertsAfter(e: Edit) {
    e.op == INSERT && e.index >= 0
  }

  /** Only insertions after a paragraph precede another edit of it. */
  ghost predicate Undisturbed(es: seq<Edit>) {
    forall i, j :: 0 <= i < j < |es| && Target(es[i]) == Target(es[j]) ==> InsertsAfter(es[i])
  }

  lemma {:induction false} EditsOfMembers(es: seq<Edit>, k: nat)
    ensures forall e :: e in EditsOf(es, k) <==> e in es && Target(e) == k
  {
    if es == [] {
    } else {
      var init, last := es[..|es| - 1], es[|es| - 1];
      EditsOfMembers(init, k);
      assert es == init + [last];
    }
  }

  lemma UndisturbedSteady(d: Doc, es: seq<Edit>)
    requires Undisturbed(es)
    ensures Steady(d, es)
  {
    hide PieceText, CellOf, EditsOf;
    forall m | 0 <= m < |es| && Target(es[m]) < Size(d) ensures Settled(d, es[..m], es[m]) {
      var n := Target(es[m]);
      EditsOfMembers(es[..m], n);
      forall e | e in EditsOf(es[..m], n) ensures InsertsAfter(e) {
        var i :| 0 <= i < m && es[..m][i] == e;
      }
      InsertionsStack(PieceAt(d, n), EditsOf(es[..m], n));
    }
  }

  lemma {:induction false} InsertionsFirst(es: seq<Edit>, k: nat)
    requires Undisturbed(es)
    ensures forall i :: 0 <= i < |EditsOf(es, k)| - 1 ==> InsertsAfter(EditsOf(es, k)[i])
  {
    if es == [] {
    } else {
      var init, last := es[..|es| - 1], es[|es| - 1];
      var first := EditsOf(init, k);
      InsertionsFirst(init, k);
      if Target(last) == k {
        EditsOfMembers(init, k);
        forall i | 0 <= i < |first| ensures InsertsAfter(first[i]) {
          assert first[i] in first;
          var j :| 0 <= j < |init| && init[j] == first[i];
          assert es[j] == first[i] && Target(es[|es| - 1]) == k;
        }
      } else {
        assert EditsOf(es, k) == first;
      }
    }
  }

  // ------------------------------------------------------------------ the order of edits

  ghost predicate Distinct(edits: seq<Edit>) {
    forall i, j :: 0 <= i < j < |edits| ==> edits[i].index != edits[j].index
  }

  lemma OneEditOf(e: Edit, k: nat)
    ensures EditsOf([e], k) == if Target(e) == k then [e] else []
  {
    assert [e][..0] == [];
  }

  lemma OneCell(p: Piece, e: Edit)
    ensures CellOf(p, [e]) == Applied(Cell(Some(p), []), e)
  {
    assert [e][..0] == [];
  }

  lemma NoCell(p: Piece)
    ensures CellOf(p, []) == Cell(Some(p), [])
  {
  }

  lemma {:induction false} NothingAfter(d: Doc, e: Edit, k: nat)
    requires Target(e) < k
    ensures EditFrom(d, [e], k) == d
  {
    hide CellOf, EditsOf;
    match d
    case Tail(_) =>
    case Seg(_, p, rest) =>
      OneEditOf(e, k);
      NoCell(p);
      NothingAfter(rest, e, k + 1);
  }
}
