/** The check of a formatted paragraph after it was written and read again. */
module RunCheck {
  import opened Prelude
  import opened Utf16
  import opened RunSplit
  import opened RunFormat

  function TextsOf<P>(ps: seq<Piece<P>>): string {
    if ps == [] then "" else ps[0].text + TextsOf(ps[1..])
  }

  function RunTexts<P>(runs: seq<Run<P>>): string {
    if runs == [] then "" else (if runs[0].text.Some? then runs[0].text.value else "") + RunTexts(runs[1..])
  }

  /** A run that overlaps the range lies within it and carries the patch. */
  predicate Accepted<P>(p: Piece<P>, s: int, e: int, applied: P -> bool) {
    var len := |Encode(p.text)|;
    0 < e && s < len ==> s <= 0 && len <= e && applied(p.attr)
  }

  predicate Accepts<P>(ps: seq<Piece<P>>, s: int, e: int, applied: P -> bool) {
    ps != [] ==>
      && Accepted(ps[0], s, e, applied)
      && Accepts(ps[1..], s - |Encode(ps[0].text)|, e - |Encode(ps[0].text)|, applied)
  }

  /** Soundness: in an accepted paragraph every unit of the range carries the patch. */
  lemma {:induction false} AcceptedIsApplied<P>(ps: seq<Piece<P>>, s: int, e: int, applied: P -> bool)
    requires Accepts(ps, s, e, applied)
    ensures forall i :: 0 <= i < |Attributed(ps)| && s <= i < e ==> applied(Attributed(ps)[i].1)
  {
    hide Encode;
    if ps == [] {
    } else {
      var first, n := Paint(Encode(ps[0].text), ps[0].attr), |Encode(ps[0].text)|;
      AcceptedIsApplied(ps[1..], s - n, e - n, applied);
      forall i | 0 <= i < |Attributed(ps)| && s <= i < e ensures applied(Attributed(ps)[i].1) {
        if i < n {
          assert Attributed(ps)[i] == first[i];
        } else {
          assert Attributed(ps)[i] == Attributed(ps[1..])[i - n];
        }
      }
    }
  }

  lemma {:induction false} AcceptsConcat<P>(a: seq<Piece<P>>, b: seq<Piece<P>>, s: int, e: int, applied: P -> bool)
    ensures Accepts(a + b, s, e, applied) <==>
              Accepts(a, s, e, applied) && Accepts(b, s - |Attributed(a)|, e - |Attributed(a)|, applied)
  {
    hide Encode, Accepted;
    if a == [] {
      assert a + b == b;
    } else {
      assert (a + b)[1..] == a[1..] + b;
      var n := |Encode(a[0].text)|;
      AcceptsConcat(a[1..], b, s - n, e - n, applied);
    }
  }

  lemma NonEmptyAccepted<P>(text: string, p: P, s: int, e: int, applied: P -> bool)
    requires text != "" ==> Accepted(Piece(text, p), s, e, applied)
    ensures Accepts(NonEmpty(text, p), s, e, applied) && |Attributed(NonEmpty(text, p))| == |Encode(text)|
  {
    hide Accepted, Attributed, Encode;
    NonEmptyPaint(text, p);
    if text != "" { assert [Piece(text, p)][1..] == []; }
  }

  /** The three pieces of a cut run are accepted. */
  lemma ThreeAccepted<P>(text: string, s: int, e: int, p: P, q: P, applied: P -> bool)
    requires s < e && applied(q) && 0 < e && s < |Encode(text)|
    requires Offset(text, Max(s, 0)).Some? && Offset(text, Min(e, |Encode(text)|)).Some?
    ensures var a, b := Offset(text, Max(s, 0)).value, Offset(text, Min(e, |Encode(text)|)).value;
      a <= b && Accepts(Three(text, a, b, p, q), s, e, applied)
  {
    hide Offset, Encode, Attributed, NonEmpty, Accepts;
    var from, to := Max(s, 0), Min(e, |Encode(text)|);
    var a, b := Offset(text, from).value, Offset(text, to).value;
    ThreeEncodings(text, from, to);
    var x, y, z := text[..a], text[a..b], text[b..];
    EmptyEncodes(x);
    EmptyEncodes(z);
    NonEmptyAccepted(x, p, s, e, applied);
    NonEmptyAccepted(y, q, s - from, e - from, applied);
    NonEmptyAccepted(z, p, s - to, e - to, applied);
    AcceptsConcat(NonEmpty(x, p), NonEmpty(y, q), s, e, applied);
    AttributedConcat(NonEmpty(x, p), NonEmpty(y, q));
    AcceptsConcat(NonEmpty(x, p) + NonEmpty(y, q), NonEmpty(z, p), s, e, applied);
  }

  lemma EmptyEncodes(s: string)
    ensures |Encode(s)| == 0 <==> s == ""
  {
  }

  lemma ChangeAccepted<P>(r: Run<P>, s: int, e: int, f: P -> P, applied: P -> bool)
    requires s < e && Change(r, s, e, f).Success? && applied(f(r.attr))
    ensures Accepts(PiecesOf(r, Change(r, s, e, f).value), s, e, applied)
    ensures |Attributed(PiecesOf(r, Change(r, s, e, f).value))| == |RunUnits(r)|
  {
    hide Offset, Encode, Three, Attributed;
    ChangeRepaints(r, s, e, f);
    if r.text.Some? {
      var text := r.text.value;
      if 0 >= e || |Encode(text)| <= s {
        assert [Piece(text, r.attr)][1..] == [];
      } else {
        ThreeAccepted(text, s, e, r.attr, f(r.attr), applied);
      }
    }
  }

  /** Completeness: what the splitter produces is accepted, whatever the range and the runs. */
  lemma {:induction false} FormattedIsAccepted<P>(runs: seq<Run<P>>, s: int, e: int, f: P -> P, applied: P -> bool)
    requires s < e && Changes(runs, s, e, f).Success? && forall r :: r in runs ==> applied(f(r.attr))
    ensures |Changes(runs, s, e, f).value| == |runs|
    ensures Accepts(After(runs, Changes(runs, s, e, f).value), s, e, applied)
    ensures TextsOf(After(runs, Changes(runs, s, e, f).value)) == RunTexts(runs)
  {
    hide Change, RunUnits, Attributed, PiecesOf, Accepts;
    ChangesLength(runs, s, e, f);
    if runs == [] {
      NothingAccepted<P>(s, e, applied);
    } else {
      var n := |RunUnits(runs[0])|;
      var cs := Changes(runs, s, e, f).value;
      FormattedIsAccepted(runs[1..], s - n, e - n, f, applied);
      assert runs[0] in runs;
      ChangeAccepted(runs[0], s, e, f, applied);
      ChangeKeepsText(runs[0], s, e, f);
      assert cs[1..] == Changes(runs[1..], s - n, e - n, f).value;
      AcceptsConcat(PiecesOf(runs[0], cs[0]), After(runs[1..], cs[1..]), s, e, applied);
      TextsConcat(PiecesOf(runs[0], cs[0]), After(runs[1..], cs[1..]));
    }
  }

  lemma NothingAccepted<P>(s: int, e: int, applied: P -> bool)
    ensures Accepts([], s, e, applied)
  {
  }

  lemma {:induction false} TextsConcat<P>(a: seq<Piece<P>>, b: seq<Piece<P>>)
    ensures TextsOf(a + b) == TextsOf(a) + TextsOf(b)
  {
    if a == [] {
      assert a + b == b;
    } else {
      assert (a + b)[1..] == a[1..] + b;
      TextsConcat(a[1..], b);
    }
  }

  lemma NonEmptyText<P>(text: string, p: P)
    ensures TextsOf(NonEmpty(text, p)) == text
  {
    if text != "" { assert [Piece(text, p)][1..] == []; assert text + "" == text; }
  }

  lemma ChangeKeepsText<P>(r: Run<P>, s: int, e: int, f: P -> P)
    requires Change(r, s, e, f).Success?
    ensures TextsOf(PiecesOf(r, Change(r, s, e, f).value)) == if r.text.Some? then r.text.value else ""
  {
    hide Offset, Encode, TextsOf, NonEmpty;
    NothingText<P>();
    if r.text.Some? {
      var text := r.text.value;
      OneText(text, r.attr);
      var c := Change(r, s, e, f).value;
      if c.Some? {
        var a, b := Offset(text, Max(s, 0)).value, Offset(text, Min(e, |Encode(text)|)).value;
        ThreeTexts(text, a, b, r.attr, f(r.attr));
      }
    }
  }

  lemma NothingText<P>()
    ensures TextsOf<P>([]) == ""
  {
  }

  lemma OneText<P>(text: string, p: P)
    ensures TextsOf([Piece(text, p)]) == text
  {
    assert [Piece(text, p)][1..] == [];
    assert text + "" == text;
  }

  lemma ThreeTexts<P>(text: string, a: nat, b: nat, p: P, q: P)
    requires a <= b <= |text|
    ensures TextsOf(Three(text, a, b, p, q)) == text
  {
    hide TextsOf, NonEmpty;
    NonEmptyText(text[..a], p);
    NonEmptyText(text[a..b], q);
    NonEmptyText(text[b..], p);
    TextsConcat(NonEmpty(text[..a], p), NonEmpty(text[a..b], q));
    TextsConcat(NonEmpty(text[..a], p) + NonEmpty(text[a..b], q), NonEmpty(text[b..], p));
    assert text == (text[..a] + text[a..b]) + text[b..];
  }

  datatype Mismatch = PastRange | NotApplied | TextChanged

  /** The checking loop over the paragraph's text runs. */
  method ValidateFormatResult<P>(runs: seq<Piece<P>>, start: int, end: int, expected: string, applied: P -> bool)
    returns (r: Option<Mismatch>)
    ensures r.None? <==> Accepts(runs, start, end, applied) && TextsOf(runs) == expected
  {
    hide Encode;
    var text := "";
    var offset := 0;
    assert runs[0..] == runs;
    for i := 0 to |runs|
      invariant Accepts(runs, start, end, applied) <==> Accepts(runs[i..], start - offset, end - offset, applied)
      invariant TextsOf(runs) == text + TextsOf(runs[i..])
    {
      assert runs[i..][0] == runs[i] && runs[i..][1..] == runs[i + 1..];
      var run := runs[i];
      text := text + run.text;
      var first := offset;
      var length := CountUnits(run.text);
      offset := offset + length;
      if first >= end || offset <= start {
        continue;
      }
      if first < start || offset > end {
        return Some(PastRange);
      }
      if !applied(run.attr) {
        return Some(NotApplied);
      }
    }
    assert runs[|runs|..] == [];
    if text != expected {
      return Some(TextChanged);
    }
    return None;
  }
}
