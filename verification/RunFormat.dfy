/** Formatting a range of a paragraph. */
module RunFormat {
  import opened Prelude
  import opened Utf16
  import opened RunSplit

  /** A run as modelled: its text if it is a text run, its properties, whether its source element can be split, and that element's interval. */
  datatype Run<+P> = Run(text: Option<string>, attr: P, splittable: bool, start: int, end: int)

  datatype Error = Unsupported | SplitsPair | NoRun | NoOp

  datatype Splice<+P> = Splice(start: int, end: int, pieces: seq<Piece<P>>)

  /** The paragraph's code units with the properties of their runs. */
  function Before<P>(runs: seq<Run<P>>): seq<(int, P)> {
    if runs == [] then [] else RunUnits(runs[0]) + Before(runs[1..])
  }

  function RunUnits<P>(r: Run<P>): seq<(int, P)> {
    if r.text.Some? then Paint(Encode(r.text.value), r.attr) else []
  }

  /** What becomes of one run; the range is relative to the run's first unit. */
  function Change<P>(r: Run<P>, s: int, e: int, f: P -> P): Result<Option<seq<Piece<P>>>, Error> {
    if r.text.None? then Success(None)
    else
      var text := r.text.value;
      var len := |Encode(text)|;
      if 0 >= e || len <= s then Success(None)
      else if !r.splittable then Failure(Unsupported)
      else
        var a, b := Offset(text, Max(s, 0)), Offset(text, Min(e, len));
        if a.None? || b.None? || a.value > b.value then Failure(SplitsPair)
        else
          var pieces := Three(text, a.value, b.value, r.attr, f(r.attr));
          if pieces == [] then Failure(NoRun) else Success(Some(pieces))
  }

  /** All runs in turn, the range moving with them. */
  function Changes<P>(runs: seq<Run<P>>, s: int, e: int, f: P -> P): Result<seq<Option<seq<Piece<P>>>>, Error> {
    if runs == [] then Success([])
    else
      match Change(runs[0], s, e, f)
      case Failure(error) => Failure(error)
      case Success(c) =>
        var n := |RunUnits(runs[0])|;
        match Changes(runs[1..], s - n, e - n, f)
        case Failure(error) => Failure(error)
        case Success(cs) => Success([c] + cs)
  }

  function PiecesOf<P>(r: Run<P>, c: Option<seq<Piece<P>>>): seq<Piece<P>> {
    if c.Some? then c.value else if r.text.Some? then [Piece(r.text.value, r.attr)] else []
  }

  /** The paragraph's text runs after the changes. */
  function After<P>(runs: seq<Run<P>>, cs: seq<Option<seq<Piece<P>>>>): seq<Piece<P>>
    requires |cs| == |runs|
  {
    if runs == [] then [] else PiecesOf(runs[0], cs[0]) + After(runs[1..], cs[1..])
  }

  function Splices<P>(runs: seq<Run<P>>, cs: seq<Option<seq<Piece<P>>>>): seq<Splice<P>>
    requires |cs| == |runs|
  {
    if runs == [] then []
    else
      (if cs[0].Some? then [Splice(runs[0].start, runs[0].end, cs[0].value)] else []) + Splices(runs[1..], cs[1..])
  }

  // -------------------------------------------------------------- what is formatted

  lemma {:induction false} ChangesLength<P>(runs: seq<Run<P>>, s: int, e: int, f: P -> P)
    requires Changes(runs, s, e, f).Success?
    ensures |Changes(runs, s, e, f).value| == |runs|
  {
    hide Change, RunUnits;
    if runs == [] {
    } else {
      ChangesLength(runs[1..], s - |RunUnits(runs[0])|, e - |RunUnits(runs[0])|, f);
    }
  }

  lemma OnePiece<P>(text: string, p: P)
    ensures Attributed([Piece(text, p)]) == Paint(Encode(text), p)
  {
    assert [Piece(text, p)][1..] == [];
    assert Paint(Encode(text), p) + [] == Paint(Encode(text), p);
  }

  lemma ChangeRepaints<P>(r: Run<P>, s: int, e: int, f: P -> P)
    requires s <= e && Change(r, s, e, f).Success?
    ensures Attributed(PiecesOf(r, Change(r, s, e, f).value)) == Repaint(RunUnits(r), s, e, f)
  {
    hide Offset, Encode, Attributed, Paint, Three;
    if r.text.Some? {
      var text := r.text.value;
      var len := |Encode(text)|;
      if 0 >= e || len <= s {
        OnePiece(text, r.attr);
        RepaintNone(Paint(Encode(text), r.attr), s, e, f);
      } else {
        ThreeRepaints(text, Max(s, 0), Min(e, len), r.attr, f);
        RepaintClipped(Paint(Encode(text), r.attr), s, e, f);
      }
    } else {
      assert Attributed<P>([]) == [] by { NoPieces<P>(); }
    }
  }

  lemma NoPieces<P>()
    ensures Attributed<P>([]) == []
  {
  }

  lemma RepaintClipped<P>(us: seq<(int, P)>, s: int, e: int, f: P -> P)
    ensures Repaint(us, Max(s, 0), Min(e, |us|), f) == Repaint(us, s, e, f)
  {
  }

  /**
   * On success exactly the units of the range carry patched properties; every other unit keeps its own, and the
   * text does not change.
   */
  lemma {:induction false} FormatsExactly<P>(runs: seq<Run<P>>, s: int, e: int, f: P -> P)
    requires s <= e && Changes(runs, s, e, f).Success?
    ensures |Changes(runs, s, e, f).value| == |runs|
    ensures Attributed(After(runs, Changes(runs, s, e, f).value)) == Repaint(Before(runs), s, e, f)
  {
    hide Change, RunUnits, Attributed, Repaint, PiecesOf;
    ChangesLength(runs, s, e, f);
    if runs == [] {
      NoPieces<P>();
      RepaintNone(Before(runs), s, e, f);
    } else {
      var n := |RunUnits(runs[0])|;
      var cs := Changes(runs, s, e, f).value;
      FormatsExactly(runs[1..], s - n, e - n, f);
      ChangeRepaints(runs[0], s, e, f);
      assert cs[1..] == Changes(runs[1..], s - n, e - n, f).value;
      AttributedConcat(PiecesOf(runs[0], cs[0]), After(runs[1..], cs[1..]));
      RepaintConcat(RunUnits(runs[0]), Before(runs[1..]), s, e, f);
    }
  }

  // --------------------------------------------------------------- when it succeeds

  /** Touched runs can be split and are not empty. */
  predicate Fits<P>(runs: seq<Run<P>>, s: int, e: int) {
    runs != [] ==>
      && (runs[0].text.Some? && 0 < e && s < |RunUnits(runs[0])| ==> runs[0].splittable && runs[0].text.value != "")
      && Fits(runs[1..], s - |RunUnits(runs[0])|, e - |RunUnits(runs[0])|)
  }

  lemma FirstNotLow<P>(text: string, p: P)
    ensures !LowAt(Paint(Encode(text), p), 0)
  {
    if text != "" { StartsHigh(text); }
  }

  lemma StartsHigh(s: string)
    requires s != ""
    ensures Encode(s) != [] && !IsLow(Encode(s)[0])
  {
  }

  lemma ThreeEmpty<P>(text: string, a: nat, b: nat, p: P, q: P)
    requires a <= b <= |text|
    ensures Three(text, a, b, p, q) == [] <==> text == ""
  {
    if Three(text, a, b, p, q) == [] {
      assert text[..a] == "" && text[a..b] == "" && text[b..] == "";
    }
  }

  lemma ChangeSucceeds<P>(r: Run<P>, s: int, e: int, f: P -> P)
    requires s < e
    ensures Change(r, s, e, f).Success? <==>
              && !LowAt(RunUnits(r), s) && !LowAt(RunUnits(r), e)
              && (r.text.Some? && 0 < e && s < |RunUnits(r)| ==> r.splittable && r.text.value != "")
  {
    hide Offset, Encode, Three;
    if r.text.Some? {
      var text := r.text.value;
      var len := |Encode(text)|;
      FirstNotLow(text, r.attr);
      if 0 < e && s < len && r.splittable {
        OffsetLow(text, r.attr, Max(s, 0));
        OffsetLow(text, r.attr, Min(e, len));
        if Offset(text, Max(s, 0)).Some? && Offset(text, Min(e, len)).Some? {
          OffsetsOrdered(text, Max(s, 0), Min(e, len));
          ThreeEmpty(text, Offset(text, Max(s, 0)).value, Offset(text, Min(e, len)).value, r.attr, f(r.attr));
        }
      }
    }
  }

  /**
   * Exactly when formatting succeeds: neither end of the range cuts a surrogate pair, and every run it touches
   * can be split and holds text. An empty text run strictly inside the range is refused.
   */
  lemma {:induction false} SucceedsExactly<P>(runs: seq<Run<P>>, s: int, e: int, f: P -> P)
    requires s < e
    ensures Changes(runs, s, e, f).Success? <==> !LowAt(Before(runs), s) && !LowAt(Before(runs), e) && Fits(runs, s, e)
  {
    hide Change, RunUnits, LowAt;
    if runs == [] {
      NothingLow(Before(runs), s);
      NothingLow(Before(runs), e);
    } else {
      var n := |RunUnits(runs[0])|;
      ChangeSucceeds(runs[0], s, e, f);
      SucceedsExactly(runs[1..], s - n, e - n, f);
      LowConcat(RunUnits(runs[0]), Before(runs[1..]), s);
      LowConcat(RunUnits(runs[0]), Before(runs[1..]), e);
    }
  }

  lemma NothingLow<P>(us: seq<(int, P)>, k: int)
    requires us == []
    ensures !LowAt(us, k)
  {
  }

  // ------------------------------------------------------------------ the splices

  /** Source elements follow each other without overlap, as siblings of a parsed tree do. */
  predicate InOrder<P>(runs: seq<Run<P>>, lo: int) {
    runs != [] ==> lo <= runs[0].start < runs[0].end && InOrder(runs[1..], runs[0].end)
  }

  predicate Disjoint<P>(ss: seq<Splice<P>>, lo: int) {
    ss != [] ==> lo <= ss[0].start < ss[0].end && Disjoint(ss[1..], ss[0].end)
  }

  lemma DisjointLower<P>(ss: seq<Splice<P>>, lo: int, lo': int)
    requires Disjoint(ss, lo) && lo' <= lo
    ensures Disjoint(ss, lo')
  {
  }

  lemma {:induction false} SplicesDisjoint<P>(runs: seq<Run<P>>, cs: seq<Option<seq<Piece<P>>>>, lo: int)
    requires |cs| == |runs| && InOrder(runs, lo)
    ensures Disjoint(Splices(runs, cs), lo)
  {
    if runs == [] {
    } else {
      SplicesDisjoint(runs[1..], cs[1..], runs[0].end);
      var rest := Splices(runs[1..], cs[1..]);
      if cs[0].Some? {
        assert Splices(runs, cs)[1..] == rest;
      } else {
        assert Splices(runs, cs) == rest;
        DisjointLower(rest, runs[0].end, lo);
      }
    }
  }

  // --------------------------------------------------------------------- the loop

  /** The splices for the runs from i on. */
  function SplicesFrom<P>(runs: seq<Run<P>>, s: int, e: int, f: P -> P): Result<seq<Splice<P>>, Error> {
    match Changes(runs, s, e, f)
    case Failure(error) => Failure(error)
    case Success(cs) =>
      ChangesLength(runs, s, e, f);
      Success(Splices(runs, cs))
  }

  function Prefixed<P>(done: seq<Splice<P>>, r: Result<seq<Splice<P>>, Error>): Result<seq<Splice<P>>, Error> {
    match r
    case Failure(error) => Failure(error)
    case Success(ss) => Success(done + ss)
  }

  lemma SplicesStep<P>(runs: seq<Run<P>>, i: nat, s: int, e: int, f: P -> P, done: seq<Splice<P>>)
    requires i < |runs|
    ensures var n, rest := |RunUnits(runs[i])|, runs[i + 1..];
      Prefixed(done, SplicesFrom(runs[i..], s, e, f)) ==
        match Change(runs[i], s, e, f)
        case Failure(error) => Failure(error)
        case Success(None) => Prefixed(done, SplicesFrom(rest, s - n, e - n, f))
        case Success(Some(pieces)) =>
          Prefixed(done + [Splice(runs[i].start, runs[i].end, pieces)], SplicesFrom(rest, s - n, e - n, f))
  {
    hide Change, RunUnits;
    assert runs[i..][0] == runs[i] && runs[i..][1..] == runs[i + 1..];
    var n, rest := |RunUnits(runs[i])|, runs[i + 1..];
    if Change(runs[i], s, e, f).Success? && Changes(rest, s - n, e - n, f).Success? {
      ChangesLength(rest, s - n, e - n, f);
      var c, cs := Change(runs[i], s, e, f).value, Changes(rest, s - n, e - n, f).value;
      assert ([c] + cs)[1..] == cs;
      if c.Some? {
        var x := Splice(runs[i].start, runs[i].end, c.value);
        assert done + ([x] + Splices(rest, cs)) == (done + [x]) + Splices(rest, cs);
      } else {
        assert [] + Splices(rest, cs) == Splices(rest, cs);
      }
    }
  }

  /** The replacement of one run: its source properties around the patched ones. */
  method FormatRunElement<P>(text: string, from: int, to: int, attr: P, patched: P) returns (r: Result<seq<Piece<P>>, Error>)
    requires from <= to
    ensures var a, b := Offset(text, from), Offset(text, to);
      r == if a.None? || b.None? || a.value > b.value then Failure(SplitsPair)
           else if Three(text, a.value, b.value, attr, patched) == [] then Failure(NoRun)
           else Success(Three(text, a.value, b.value, attr, patched))
  {
    hide Offset;
    var a := OffsetOf(text, from);
    var b := OffsetOf(text, to);
    if a == None || b == None {
      return Failure(SplitsPair);
    }
    OffsetsOrdered(text, from, to);
    var output: seq<Piece<P>> := [];
    var segments := [Piece(text[..a.value], attr), Piece(text[a.value..b.value], patched), Piece(text[b.value..], attr)];
    for i := 0 to 3
      invariant i == 0 ==> output == []
      invariant i == 1 ==> output == NonEmpty(segments[0].text, attr)
      invariant i == 2 ==> output == NonEmpty(segments[0].text, attr) + NonEmpty(segments[1].text, patched)
      invariant i == 3 ==> output == Three(text, a.value, b.value, attr, patched)
    {
      if segments[i].text != "" {
        output := output + [segments[i]];
      }
    }
    if |output| == 0 {
      return Failure(NoRun);
    }
    return Success(output);
  }

  /** The loop over the paragraph's runs. */
  method ParagraphSplices<P>(runs: seq<Run<P>>, start: int, end: int, f: P -> P) returns (r: Result<seq<Splice<P>>, Error>)
    requires start < end
    ensures var all := SplicesFrom(runs, start, end, f);
      r == if all == Success([]) then Failure(NoOp) else all
  {
    hide SplicesFrom, Offset, Encode, Three, Paint;
    var splices: seq<Splice<P>> := [];
    var offset := 0;
    assert runs[0..] == runs;
    PrefixNothing(SplicesFrom(runs, start, end, f));
    for i := 0 to |runs|
      invariant Prefixed(splices, SplicesFrom(runs[i..], start - offset, end - offset, f)) == SplicesFrom(runs, start, end, f)
    {
      SplicesStep(runs, i, start - offset, end - offset, f, splices);
      var run := runs[i];
      if run.text == None {
        continue;
      }
      var text := run.text.value;
      var length := CountUnits(text);
      var first := offset;
      offset := offset + length;
      if first >= end || offset <= start {
        continue;
      }
      if !run.splittable {
        return Failure(Unsupported);
      }
      var replacement := FormatRunElement(text, Max(start - first, 0), Min(end - first, length), run.attr, f(run.attr));
      if replacement.Failure? {
        return Failure(replacement.error);
      }
      splices := splices + [Splice(run.start, run.end, replacement.value)];
    }
    NoRunsLeft(runs, start - offset, end - offset, f, splices);
    if |splices| == 0 {
      return Failure(NoOp);
    }
    return Success(splices);
  }

  lemma PrefixNothing<P>(r: Result<seq<Splice<P>>, Error>)
    ensures Prefixed([], r) == r
  {
    if r.Success? { assert [] + r.value == r.value; }
  }

  lemma NoRunsLeft<P>(runs: seq<Run<P>>, s: int, e: int, f: P -> P, done: seq<Splice<P>>)
    ensures Prefixed(done, SplicesFrom(runs[|runs|..], s, e, f)) == Success(done)
  {
    assert runs[|runs|..] == [];
    assert done + [] == done;
  }
}
