/** What formatting does to the source of the paragraph. */
module RunSource {
  import opened Prelude
  import opened Utf16
  import opened RunSplit
  import opened RunFormat
  import opened TextSplices

  /** How the pieces of the run element that starts at `start` are written; what they are copied from is there. */
  function Shown<P>(start: int, pieces: seq<Piece<P>>, show: (int, Piece<P>) -> string): string {
    if pieces == [] then "" else show(start, pieces[0]) + Shown(start, pieces[1..], show)
  }

  function Texts<P>(ss: seq<Splice<P>>, show: (int, Piece<P>) -> string): seq<TextSplice> {
    if ss == [] then []
    else [TextSplice(ss[0].start, ss[0].end, Shown(ss[0].start, ss[0].pieces, show))] + Texts(ss[1..], show)
  }

  /** The source from `at` on with the element of every changed run written anew, and all else as it was. */
  function Rewritten<P>(source: string, runs: seq<Run<P>>, cs: seq<Option<seq<Piece<P>>>>, at: int, show: (int, Piece<P>) -> string): string
    requires |cs| == |runs| && InOrder(runs, at) && 0 <= at && Ends(runs, at) <= |source|
  {
    if runs == [] then source[at..]
    else
      OrderGrows(runs[1..], runs[0].end);
      source[at..runs[0].start]
      + (if cs[0].Some? then Shown(runs[0].start, cs[0].value, show) else source[runs[0].start..runs[0].end])
      + Rewritten(source, runs[1..], cs[1..], runs[0].end, show)
  }

  function Ends<P>(runs: seq<Run<P>>, at: int): int {
    if runs == [] then at else Ends(runs[1..], runs[0].end)
  }

  lemma {:induction false} OrderGrows<P>(runs: seq<Run<P>>, at: int)
    requires InOrder(runs, at)
    ensures at <= Ends(runs, at)
    decreases |runs|
  {
    if runs != [] { OrderGrows(runs[1..], runs[0].end); }
  }

  lemma {:induction false} FitsFrom(n: int, ss: seq<TextSplice>, at: int, lower: int)
    requires Fit(n, ss, at) && lower <= at
    ensures Fit(n, ss, lower)
  {
  }

  lemma {:induction false} AppliedFrom(source: string, ss: seq<TextSplice>, at: int, lower: int)
    requires 0 <= lower <= at <= |source| && Fit(|source|, ss, at)
    ensures Fit(|source|, ss, lower) && Applied(source, ss, lower) == source[lower..at] + Applied(source, ss, at)
  {
    FitsFrom(|source|, ss, at, lower);
    if ss == [] {
      assert source[lower..] == source[lower..at] + source[at..];
    } else {
      var rest := Applied(source, ss[1..], ss[0].end);
      assert source[lower..ss[0].start] == source[lower..at] + source[at..ss[0].start];
      assert (source[lower..at] + source[at..ss[0].start]) + ss[0].text + rest == source[lower..at] + (source[at..ss[0].start] + ss[0].text + rest);
    }
  }

  lemma AppliedOn(source: string, x: TextSplice, rest: seq<TextSplice>, at: int)
    requires 0 <= at <= x.start <= x.end <= |source| && Fit(|source|, rest, x.end)
    ensures Fit(|source|, [x] + rest, at)
    ensures Applied(source, [x] + rest, at) == source[at..x.start] + x.text + Applied(source, rest, x.end)
  {
    assert ([x] + rest)[1..] == rest;
  }

  lemma TextsOn<P>(x: Splice<P>, rest: seq<Splice<P>>, show: (int, Piece<P>) -> string)
    ensures Texts([x] + rest, show) == [TextSplice(x.start, x.end, Shown(x.start, x.pieces, show))] + Texts(rest, show)
  {
    assert ([x] + rest)[1..] == rest;
  }

  lemma Across(s: string, at: int, i: int, j: int, more: string)
    requires 0 <= at <= i <= j <= |s|
    ensures s[at..j] + more == s[at..i] + s[i..j] + more
  {
    assert s[at..j] == s[at..i] + s[i..j];
  }

  lemma RewrittenStep<P>(source: string, runs: seq<Run<P>>, cs: seq<Option<seq<Piece<P>>>>, at: int, show: (int, Piece<P>) -> string)
    requires runs != [] && |cs| == |runs| && InOrder(runs, at) && 0 <= at && Ends(runs, at) <= |source|
    ensures var r := runs[0];
      && at <= r.start < r.end <= |source| && InOrder(runs[1..], r.end) && Ends(runs[1..], r.end) <= |source|
      && Rewritten(source, runs, cs, at, show)
        == source[at..r.start] + (if cs[0].Some? then Shown(r.start, cs[0].value, show) else source[r.start..r.end])
         + Rewritten(source, runs[1..], cs[1..], r.end, show)
  {
    OrderGrows(runs[1..], runs[0].end);
  }

  /** The splices of the changed runs, applied to the source, write those runs anew and nothing else. */
  lemma {:induction false} SplicesRewrite<P>(source: string, runs: seq<Run<P>>, cs: seq<Option<seq<Piece<P>>>>, at: int, show: (int, Piece<P>) -> string)
    requires |cs| == |runs| && InOrder(runs, at) && 0 <= at && Ends(runs, at) <= |source|
    ensures var ss := Texts(Splices(runs, cs), show);
      Fit(|source|, ss, at) && Applied(source, ss, at) == Rewritten(source, runs, cs, at, show)
    decreases |runs|
  {
    hide Shown, Applied, Fit, Texts, Rewritten, InOrder, Ends;
    if runs == [] {
      NothingSpliced(source, runs, cs, at, show);
    } else {
      var r, rest := runs[0], Splices(runs[1..], cs[1..]);
      RewrittenStep(source, runs, cs, at, show);
      SplicesRewrite(source, runs[1..], cs[1..], r.end, show);
      if cs[0].Some? {
        var x := Splice(r.start, r.end, cs[0].value);
        TextsOn(x, rest, show);
        AppliedOn(source, TextSplice(r.start, r.end, Shown(r.start, x.pieces, show)), Texts(rest, show), at);
      } else {
        assert Splices(runs, cs) == rest;
        AppliedFrom(source, Texts(rest, show), r.end, at);
        Across(source, at, r.start, r.end, Applied(source, Texts(rest, show), r.end));
      }
    }
  }

  lemma NothingSpliced<P>(source: string, runs: seq<Run<P>>, cs: seq<Option<seq<Piece<P>>>>, at: int, show: (int, Piece<P>) -> string)
    requires runs == [] && |cs| == |runs| && InOrder(runs, at) && 0 <= at && Ends(runs, at) <= |source|
    ensures var ss := Texts(Splices(runs, cs), show);
      Fit(|source|, ss, at) && Applied(source, ss, at) == Rewritten(source, runs, cs, at, show)
  {
  }

  /** Run i is a text run that reaches into the range. */
  predicate Touched<P>(runs: seq<Run<P>>, i: nat, s: int, e: int)
    requires i < |runs|
  {
    runs[i].text.Some? && |Before(runs[..i])| < e && s < |Before(runs[..i + 1])|
  }

  lemma UnitsShift<P>(runs: seq<Run<P>>, i: nat)
    requires 0 < i <= |runs|
    ensures |Before(runs[..i])| == |RunUnits(runs[0])| + |Before(runs[1..][..i - 1])|
  {
    hide RunUnits;
    assert runs[..i][1..] == runs[1..][..i - 1];
  }

  lemma FirstTouched<P>(runs: seq<Run<P>>, s: int, e: int, f: P -> P)
    requires runs != [] && Change(runs[0], s, e, f).Success?
    ensures Change(runs[0], s, e, f).value.Some? <==> Touched(runs, 0, s, e)
  {
    hide Offset, Encode, Paint, Three;
    UnitsShift(runs, 1);
    assert runs[1..][..0] == [] && runs[..0] == [];
  }

  lemma {:induction false} ChangedExactly<P>(runs: seq<Run<P>>, s: int, e: int, f: P -> P, i: nat)
    requires Changes(runs, s, e, f).Success? && i < |runs|
    ensures |Changes(runs, s, e, f).value| == |runs|
    ensures Changes(runs, s, e, f).value[i].Some? <==> Touched(runs, i, s, e)
    decreases |runs|
  {
    hide Change, RunUnits, Before;
    ChangesLength(runs, s, e, f);
    if i == 0 {
      FirstTouched(runs, s, e, f);
    } else {
      var n := |RunUnits(runs[0])|;
      ChangedExactly(runs[1..], s - n, e - n, f, i - 1);
      UnitsShift(runs, i);
      UnitsShift(runs, i + 1);
    }
  }

  /**
   * From the range to the source: where formatting succeeds, its splices can be applied to the part, and applied they
   * write exactly the changed runs anew; read as runs, these are the paragraph with the properties of the units in
   * the range patched. A run is written anew if and only if it is a text run that reaches into the range.
   */
  lemma FormatsSource<P>(source: string, runs: seq<Run<P>>, s: int, e: int, f: P -> P, show: (int, Piece<P>) -> string)
    requires s < e && InOrder(runs, 0) && Ends(runs, 0) <= |source|
    requires SplicesFrom(runs, s, e, f).Success?
    ensures Changes(runs, s, e, f).Success? && |Changes(runs, s, e, f).value| == |runs|
    ensures var ss, cs := Texts(SplicesFrom(runs, s, e, f).value, show), Changes(runs, s, e, f).value;
      && Fit(|source|, ss, 0)
      && Applied(source, ss, 0) == Rewritten(source, runs, cs, 0, show)
      && Attributed(After(runs, cs)) == Repaint(Before(runs), s, e, f)
      && forall i: nat :: i < |runs| ==> (cs[i].Some? <==> Touched(runs, i, s, e))
  {
    hide Changes, Before, After, Attributed, Repaint, Rewritten, Applied, Fit, Texts, Touched;
    FormatsExactly(runs, s, e, f);
    SplicesRewrite(source, runs, Changes(runs, s, e, f).value, 0, show);
    forall i: nat | i < |runs| ensures Changes(runs, s, e, f).value[i].Some? <==> Touched(runs, i, s, e) {
      ChangedExactly(runs, s, e, f, i);
    }
  }
}
